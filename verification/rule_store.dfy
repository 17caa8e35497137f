/** The pure state transitions behind the background worker's commands.
    Each takes the loaded state and returns the state to persist. */
module RuleStore {
  import opened Wrappers
  import opened Rules

  /** The index of the first rule carrying `id`, or None when no rule does:
      the array search the worker runs before an edit or a toggle. */
  function FindIndex(rules: seq<Rule>, id: RuleId): (r: Option<nat>)
    ensures r.Some? ==> FirstMatch(rules, id, r.value)
    ensures r.None? <==> !HasId(rules, id)
  {
    if |rules| == 0 then None
    else if rules[0].id == id then Some(0)
    else
      match FindIndex(rules[1..], id)
      case None =>
        assert forall k :: 1 <= k < |rules| ==> rules[k] == rules[1..][k - 1];
        None
      case Some(i) => Some(i + 1)
  }

  /** Two rule lists with the same ids at the same places have the same
      first match for every id. */
  lemma FindIndexFollowsIds(a: seq<Rule>, b: seq<Rule>, id: RuleId)
    requires SameIds(a, b)
    ensures FindIndex(a, id) == FindIndex(b, id)
  {
  }

  /** SET_GLOBAL_ENABLED: only the master switch changes. */
  function SetGlobalEnabled(s: State, enabled: bool): (r: State)
    ensures r.globalEnabled == enabled
    ensures r.rules == s.rules
  {
    s.(globalEnabled := enabled)
  }

  /** ADD_RULE: a new, enabled rule stamped with the clock value `now` is
      appended after every existing rule. */
  function AddRule(s: State, now: int, pattern: string, replacement: string): (r: State)
    ensures |r.rules| == |s.rules| + 1
    ensures r.rules[..|s.rules|] == s.rules
    ensures r.rules[|s.rules|] == Rule(RuleId(now), pattern, replacement, true)
    ensures r.globalEnabled == s.globalEnabled
  {
    s.(rules := s.rules + [Rule(RuleId(now), pattern, replacement, true)])
  }

  /** Overlaying an edit on a rule: supplied fields win, the id and the
      enabled flag are kept. */
  function ApplyUpdates(rule: Rule, u: Updates): (r: Rule)
    ensures r.id == rule.id && r.enabled == rule.enabled
    ensures r.pattern == (if u.pattern.Some? then u.pattern.value else rule.pattern)
    ensures r.replacement == (if u.replacement.Some? then u.replacement.value else rule.replacement)
  {
    rule.(pattern := u.pattern.GetOr(rule.pattern),
          replacement := u.replacement.GetOr(rule.replacement))
  }

  /** UPDATE_RULE: the first rule carrying `id` receives the supplied fields;
      every other rule, the order, the length and the switch are untouched,
      and an absent id changes nothing. */
  function UpdateRule(s: State, id: RuleId, u: Updates): (r: State)
    ensures r.globalEnabled == s.globalEnabled
    ensures |r.rules| == |s.rules|
    ensures forall j :: 0 <= j < |s.rules| ==>
      r.rules[j] == (if FirstMatch(s.rules, id, j) then ApplyUpdates(s.rules[j], u) else s.rules[j])
    ensures SameIds(r.rules, s.rules)
    ensures !HasId(s.rules, id) ==> r == s
  {
    match FindIndex(s.rules, id)
    case None => s
    case Some(i) => s.(rules := s.rules[i := ApplyUpdates(s.rules[i], u)])
  }

  /** The rules not carrying `id`, in their original order. */
  function WithoutId(rules: seq<Rule>, id: RuleId): (r: seq<Rule>)
    ensures !HasId(r, id)
    ensures !HasId(rules, id) ==> r == rules
    ensures |r| <= |rules|
  {
    if |rules| == 0 then []
    else
      var rest := WithoutId(rules[1..], id);
      assert !HasId(rules, id) ==> !HasId(rules[1..], id) by {
        assert forall k :: 0 <= k < |rules[1..]| ==> rules[1..][k] == rules[k + 1];
      }
      if rules[0].id != id then
        assert !HasId(rules, id) ==> [rules[0]] + rest == rules by {
          assert rules == [rules[0]] + rules[1..];
        }
        [rules[0]] + rest
      else rest
  }

  /** The survivors of a deletion are exactly the rules not carrying `id`. */
  lemma {:induction false} WithoutIdMembers(rules: seq<Rule>, id: RuleId)
    ensures forall x :: x in WithoutId(rules, id) <==> x in rules && x.id != id
  {
    if |rules| > 0 {
      WithoutIdMembers(rules[1..], id);
      assert rules == [rules[0]] + rules[1..];
    }
  }

  /** DELETE_RULE: every rule carrying `id` goes, the rest stay in order. */
  function DeleteRule(s: State, id: RuleId): (r: State)
    ensures r.globalEnabled == s.globalEnabled
    ensures forall x :: x in r.rules <==> x in s.rules && x.id != id
    ensures !HasId(r.rules, id)
  {
    WithoutIdMembers(s.rules, id);
    s.(rules := WithoutId(s.rules, id))
  }

  /** Filtering distributes over concatenation: the survivors of `a` come
      before those of `b`, which is how the relative order is kept. */
  lemma {:induction false} WithoutIdConcat(a: seq<Rule>, b: seq<Rule>, id: RuleId)
    ensures WithoutId(a + b, id) == WithoutId(a, id) + WithoutId(b, id)
  {
    if |a| == 0 {
      assert a + b == b;
    } else {
      var head := if a[0].id != id then [a[0]] else [];
      assert (a + b)[0] == a[0];
      assert (a + b)[1..] == a[1..] + b;
      assert WithoutId(a + b, id) == head + WithoutId(a[1..] + b, id);
      assert WithoutId(a, id) == head + WithoutId(a[1..], id);
      WithoutIdConcat(a[1..], b, id);
    }
  }

  /** Deleting an id twice is the same as deleting it once. */
  lemma DeleteIdempotent(s: State, id: RuleId)
    ensures DeleteRule(DeleteRule(s, id), id) == DeleteRule(s, id)
  {
  }

  /** Deleting an id nobody carries leaves the state as it was. */
  lemma DeleteAbsent(s: State, id: RuleId)
    requires !HasId(s.rules, id)
    ensures DeleteRule(s, id) == s
  {
  }

  /** Deletion keeps ids unique. */
  lemma {:induction false} WithoutIdKeepsUnique(rules: seq<Rule>, id: RuleId)
    requires UniqueIds(rules)
    ensures UniqueIds(WithoutId(rules, id))
  {
    if |rules| > 0 {
      var rest := WithoutId(rules[1..], id);
      assert UniqueIds(rules[1..]) by {
        assert forall k :: 0 <= k < |rules[1..]| ==> rules[1..][k] == rules[k + 1];
      }
      WithoutIdKeepsUnique(rules[1..], id);
      if rules[0].id != id {
        forall k | 0 <= k < |rest|
          ensures rest[k].id != rules[0].id
        {
          WithoutIdMembers(rules[1..], id);
          assert rest[k] in rules[1..];
        }
        assert WithoutId(rules, id) == [rules[0]] + rest;
      }
    }
  }

  /** The rule with its enabled flag inverted. */
  function Flip(rule: Rule): Rule {
    rule.(enabled := !rule.enabled)
  }

  /** TOGGLE_RULE: the first rule carrying `id` has its flag inverted;
      nothing else changes, and an absent id changes nothing. */
  function ToggleRule(s: State, id: RuleId): (r: State)
    ensures r.globalEnabled == s.globalEnabled
    ensures |r.rules| == |s.rules|
    ensures forall j :: 0 <= j < |s.rules| ==>
      r.rules[j] == (if FirstMatch(s.rules, id, j) then Flip(s.rules[j]) else s.rules[j])
    ensures SameIds(r.rules, s.rules)
    ensures !HasId(s.rules, id) ==> r == s
  {
    match FindIndex(s.rules, id)
    case None => s
    case Some(i) => s.(rules := s.rules[i := Flip(s.rules[i])])
  }

  /** Toggling the same id twice restores the state. */
  lemma ToggleInvolution(s: State, id: RuleId)
    ensures ToggleRule(ToggleRule(s, id), id) == s
  {
  }

  /** Edits and toggles leave every id where it was, so they keep ids unique. */
  lemma SameIdsKeepUnique(a: seq<Rule>, b: seq<Rule>)
    requires SameIds(a, b)
    requires UniqueIds(a)
    ensures UniqueIds(b)
  {
  }

  /** With a clock value that no existing rule carries, adding keeps ids
      unique, and the new id was not present before. */
  lemma AddFreshKeepsUnique(s: State, now: int, pattern: string, replacement: string)
    requires UniqueIds(s.rules)
    requires !HasId(s.rules, RuleId(now))
    ensures UniqueIds(AddRule(s, now, pattern, replacement).rules)
  {
  }
}

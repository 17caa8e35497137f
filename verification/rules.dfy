/** The data model of the rule store: user rules, the whole synchronised
    state, and the default that stands in for a state never persisted. */
module Rules {
  import opened Wrappers

  /** A user rule's identifier. The background worker takes it from the
      clock when the rule is created; it is a namespace of its own, never
      confused with the filter engine's descriptor ids. */
  datatype RuleId = RuleId(stamp: int)

  /** One rewrite directive: a URL pattern and its substitution template,
      both treated as opaque strings, and a per-rule switch. */
  datatype Rule = Rule(id: RuleId, pattern: string, replacement: string, enabled: bool)

  /** The persisted unit: the master switch and the ordered rule list. */
  datatype State = State(globalEnabled: bool, rules: seq<Rule>)

  /** The fields an edit may supply; an absent field is left as it was. */
  datatype Updates = Updates(pattern: Option<string>, replacement: Option<string>)

  /** The state used when storage holds nothing: switched on, no rules. */
  const DefaultState: State := State(true, [])

  /** Reading the persisted state: the stored value if there is one,
      otherwise the default. Absence is not an error. */
  function Load(stored: Option<State>): (s: State)
    ensures stored.None? ==> s.globalEnabled && s.rules == []
    ensures stored.Some? ==> s == stored.value
  {
    stored.GetOr(DefaultState)
  }

  /** Some rule in `rules` carries `id`. */
  predicate HasId(rules: seq<Rule>, id: RuleId) {
    exists k :: 0 <= k < |rules| && rules[k].id == id
  }

  /** `i` is the position of the first rule carrying `id`, the index a
      left-to-right search stops at. */
  predicate FirstMatch(rules: seq<Rule>, id: RuleId, i: int) {
    && 0 <= i < |rules|
    && rules[i].id == id
    && forall k :: 0 <= k < i ==> rules[k].id != id
  }

  /** No two rules share an id. */
  predicate UniqueIds(rules: seq<Rule>) {
    forall j, k :: 0 <= j < k < |rules| ==> rules[j].id != rules[k].id
  }

  /** Both sequences carry the same ids at the same positions. */
  predicate SameIds(a: seq<Rule>, b: seq<Rule>) {
    && |a| == |b|
    && forall k :: 0 <= k < |a| ==> a[k].id == b[k].id
  }
}

/** The declarative request-filtering engine as the background worker sees
    it: a list of installed redirect descriptors, which can be enumerated,
    removed by id and appended to. Regex checking by the engine is not
    modelled; patterns and templates are opaque strings. */
module FilterEngine {

  /** The engine's own rule numbering, unrelated to a user rule's id. */
  datatype DescriptorId = DescriptorId(n: int)

  /** The one action kind the worker installs: a redirect whose target is
      built from a regex-substitution template. */
  datatype Action = Redirect(regexSubstitution: string)

  /** Which requests a descriptor matches: a regex over the URL, restricted
      to a list of resource types. */
  datatype Condition = Condition(regexFilter: string, resourceTypes: seq<string>)

  datatype Descriptor = Descriptor(id: DescriptorId, priority: int, action: Action, condition: Condition)

  /** The priority every installed descriptor gets. */
  const RulePriority: int := 1

  /** The resource types every installed descriptor applies to, in the
      engine's names. */
  const AllResourceTypes: seq<string> := [
    "main_frame", "sub_frame", "stylesheet", "script",
    "image", "font", "object", "xmlhttprequest", "ping",
    "media", "websocket", "other"
  ]

  /** Enumerating the installed descriptors' ids, in installation order. */
  function InstalledIds(engine: seq<Descriptor>): (r: seq<DescriptorId>)
    ensures |r| == |engine|
    ensures forall k :: 0 <= k < |engine| ==> r[k] == engine[k].id
  {
    if |engine| == 0 then [] else [engine[0].id] + InstalledIds(engine[1..])
  }

  /** A bulk removal: every descriptor whose id is listed goes, the others
      stay in order. */
  function RemoveRules(engine: seq<Descriptor>, ids: seq<DescriptorId>): (r: seq<Descriptor>)
    ensures forall k :: 0 <= k < |r| ==> r[k] in engine && r[k].id !in ids
    ensures forall k :: 0 <= k < |engine| && engine[k].id !in ids ==> engine[k] in r
    ensures |r| <= |engine|
  {
    if |engine| == 0 then []
    else
      var rest := RemoveRules(engine[1..], ids);
      assert engine == [engine[0]] + engine[1..];
      if engine[0].id in ids then rest else [engine[0]] + rest
  }

  /** Removal distributes over concatenation, so the survivors keep their
      installation order. */
  lemma {:induction false} RemoveRulesConcat(a: seq<Descriptor>, b: seq<Descriptor>, ids: seq<DescriptorId>)
    ensures RemoveRules(a + b, ids) == RemoveRules(a, ids) + RemoveRules(b, ids)
  {
    if |a| == 0 {
      assert a + b == b;
    } else {
      var ab := a + b;
      assert ab[0] == a[0] && ab[1..] == a[1..] + b;
      RemoveRulesConcat(a[1..], b, ids);
    }
  }

  /** A bulk addition: the new descriptors are installed after the present
      ones. */
  function AddRules(engine: seq<Descriptor>, added: seq<Descriptor>): (r: seq<Descriptor>)
    ensures |r| == |engine| + |added|
    ensures r[..|engine|] == engine && r[|engine|..] == added
  {
    engine + added
  }

  /** Removing a list of ids that covers every installed descriptor leaves
      the engine empty. */
  lemma {:induction false} RemoveCoveredClears(engine: seq<Descriptor>, ids: seq<DescriptorId>)
    requires forall k :: 0 <= k < |engine| ==> engine[k].id in ids
    ensures RemoveRules(engine, ids) == []
  {
    if |engine| > 0 {
      RemoveCoveredClears(engine[1..], ids);
    }
  }

  /** Removing every id the engine reports leaves it empty, whatever it
      held before. */
  lemma RemoveInstalledClears(engine: seq<Descriptor>)
    ensures RemoveRules(engine, InstalledIds(engine)) == []
  {
    RemoveCoveredClears(engine, InstalledIds(engine));
  }
}

/** The background worker's message handler: a command is applied to the
    loaded state, the result is saved and the filter engine is resynced,
    and the new state is the reply. Storage and the engine are explicit
    values here; the clock value for a new rule is a parameter. */
module Dispatcher {
  import opened Wrappers
  import opened Rules
  import RuleStore
  import opened FilterEngine
  import opened Synchronizer

  /** The typed commands the panel sends; `Unknown` stands for every
      message whose type is none of the six handled names. */
  datatype Command =
    | GetState
    | SetGlobalEnabled(enabled: bool)
    | AddRule(pattern: string, replacement: string)
    | UpdateRule(ruleId: RuleId, updates: Updates)
    | DeleteRule(ruleId: RuleId)
    | ToggleRule(ruleId: RuleId)
    | Unknown

  datatype Response = StateReply(state: State) | ErrorReply(error: string)

  /** The error value answered to an unrecognised message type. */
  const UnknownTypeError: string := "Unknown message type"

  /** What the worker touches: the persisted state (None when never
      written) and the descriptors installed in the filter engine. */
  datatype Env = Env(stored: Option<State>, installed: seq<Descriptor>)

  datatype Handled = Handled(reply: Response, env: Env)

  /** The state machine proper: the state a command leaves behind. */
  function Transition(s: State, cmd: Command, now: int): State {
    match cmd
    case GetState => s
    case SetGlobalEnabled(b) => RuleStore.SetGlobalEnabled(s, b)
    case AddRule(p, r) => RuleStore.AddRule(s, now, p, r)
    case UpdateRule(id, u) => RuleStore.UpdateRule(s, id, u)
    case DeleteRule(id) => RuleStore.DeleteRule(s, id)
    case ToggleRule(id) => RuleStore.ToggleRule(s, id)
    case Unknown => s
  }

  /** Save `s`, then resync the engine from it. */
  function Commit(env: Env, s: State): Env {
    Env(Some(s), Sync(env.installed, s))
  }

  /** Handling one command. GET_STATE and unknown types touch nothing;
      SET_GLOBAL_ENABLED, ADD_RULE and DELETE_RULE always save and resync;
      UPDATE_RULE and TOGGLE_RULE save and resync only when the id is
      found. Every state reply is the transition's result, and whenever
      anything changed it is exactly what was saved and synced. */
  function HandleMessage(env: Env, cmd: Command, now: int): (h: Handled)
    ensures h.reply.ErrorReply? <==> cmd.Unknown?
    ensures h.reply.ErrorReply? ==> h.reply.error == UnknownTypeError
    ensures h.reply.StateReply? ==> h.reply.state == Transition(Load(env.stored), cmd, now)
    ensures cmd.GetState? || cmd.Unknown? ==> h.env == env
    ensures cmd.SetGlobalEnabled? || cmd.AddRule? || cmd.DeleteRule? ==>
      h.env == Env(Some(h.reply.state), Desired(h.reply.state))
    ensures (cmd.UpdateRule? || cmd.ToggleRule?) ==>
      if HasId(Load(env.stored).rules, cmd.ruleId)
      then h.env == Env(Some(h.reply.state), Desired(h.reply.state))
      else h.env == env && h.reply == StateReply(Load(env.stored))
  {
    var s := Load(env.stored);
    match cmd
    case GetState => Handled(StateReply(s), env)
    case Unknown => Handled(ErrorReply(UnknownTypeError), env)
    case UpdateRule(id, _) =>
      if RuleStore.FindIndex(s.rules, id).Some? then
        var t := Transition(s, cmd, now);
        Handled(StateReply(t), Commit(env, t))
      else Handled(StateReply(s), env)
    case ToggleRule(id) =>
      if RuleStore.FindIndex(s.rules, id).Some? then
        var t := Transition(s, cmd, now);
        Handled(StateReply(t), Commit(env, t))
      else Handled(StateReply(s), env)
    case _ =>
      var t := Transition(s, cmd, now);
      Handled(StateReply(t), Commit(env, t))
  }

  /** The engine holds exactly what the persisted state calls for. */
  predicate Consistent(env: Env) {
    env.installed == Desired(Load(env.stored))
  }

  /** The sync run at worker start and on install: load, then resync. */
  function Startup(env: Env): (r: Env)
    ensures r.stored == env.stored
    ensures Consistent(r)
  {
    Env(env.stored, Sync(env.installed, Load(env.stored)))
  }

  /** Once consistent, every command keeps the engine consistent with
      storage, including the commands that save nothing. */
  lemma HandlePreservesConsistency(env: Env, cmd: Command, now: int)
    requires Consistent(env)
    ensures Consistent(HandleMessage(env, cmd, now).env)
  {
  }

  /** Rule ids stay unique under every command, provided the clock value
      for ADD_RULE is one no stored rule carries. */
  lemma HandleKeepsUniqueIds(env: Env, cmd: Command, now: int)
    requires UniqueIds(Load(env.stored).rules)
    requires cmd.AddRule? ==> !HasId(Load(env.stored).rules, RuleId(now))
    ensures UniqueIds(Load(HandleMessage(env, cmd, now).env.stored).rules)
  {
    var s := Load(env.stored);
    var t := Transition(s, cmd, now);
    match cmd {
      case GetState =>
      case Unknown =>
      case SetGlobalEnabled(_) =>
      case AddRule(p, r) =>
        RuleStore.AddFreshKeepsUnique(s, now, p, r);
      case UpdateRule(_, _) =>
        RuleStore.SameIdsKeepUnique(s.rules, t.rules);
      case ToggleRule(_) =>
        RuleStore.SameIdsKeepUnique(s.rules, t.rules);
      case DeleteRule(id) =>
        RuleStore.WithoutIdKeepsUnique(s.rules, id);
    }
  }

  /** ADD_RULE with a fresh clock value replies with one more rule, enabled,
      carrying an id that no earlier rule had, and that state is saved. */
  lemma AddRuleAddsOneFreshRule(env: Env, pattern: string, replacement: string, now: int)
    requires !HasId(Load(env.stored).rules, RuleId(now))
    ensures var h := HandleMessage(env, AddRule(pattern, replacement), now);
      var before := Load(env.stored).rules;
      && h.reply.StateReply?
      && |h.reply.state.rules| == |before| + 1
      && h.reply.state.rules[|before|].enabled
      && !HasId(before, h.reply.state.rules[|before|].id)
      && h.env.stored == Some(h.reply.state)
  {
  }

  /** Handling DELETE_RULE a second time changes nothing and gives the
      same reply. */
  lemma DeleteTwiceIsOnce(env: Env, id: RuleId, now: int, later: int)
    ensures var h := HandleMessage(env, DeleteRule(id), now);
      HandleMessage(h.env, DeleteRule(id), later) == h
  {
  }

  /** Handling TOGGLE_RULE twice restores the loaded state and replies
      with it. */
  lemma ToggleTwiceRestores(env: Env, id: RuleId, now: int, later: int)
    ensures var h := HandleMessage(env, ToggleRule(id), now);
      var h2 := HandleMessage(h.env, ToggleRule(id), later);
      && Load(h2.env.stored) == Load(env.stored)
      && h2.reply == StateReply(Load(env.stored))
  {
  }

  /** An edit naming an absent id changes neither storage nor the engine. */
  lemma UpdateAbsentIsNoOp(env: Env, id: RuleId, u: Updates, now: int)
    requires !HasId(Load(env.stored).rules, id)
    ensures HandleMessage(env, UpdateRule(id, u), now) == Handled(StateReply(Load(env.stored)), env)
  {
  }

  /** On first run, with nothing stored, the worker reports the default
      state (switched on, no rules) without saving it, and the startup
      sync leaves the engine empty. */
  lemma FirstRun(installed: seq<Descriptor>, now: int)
    ensures HandleMessage(Env(None, installed), GetState, now)
      == Handled(StateReply(State(true, [])), Env(None, installed))
    ensures Startup(Env(None, installed)).installed == []
  {
  }

  /** Two additions in a row, at distinct clock values, leave two rules in
      insertion order with distinct ids. */
  lemma TwoAddsExample(env: Env, t1: int, t2: int)
    requires env.stored == None
    requires t1 != t2
    ensures var h1 := HandleMessage(env, AddRule("a", "b"), t1);
      var h2 := HandleMessage(h1.env, AddRule("c", "d"), t2);
      && h2.reply.StateReply?
      && h2.reply.state.rules == [Rule(RuleId(t1), "a", "b", true), Rule(RuleId(t2), "c", "d", true)]
      && h2.reply.state.rules[0].id != h2.reply.state.rules[1].id
  {
  }
}

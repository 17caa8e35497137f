# URL rewrite extension: background synchronisation engine

A Dafny model of the background service worker of a browser extension that
rewrites request URLs. The user keeps an ordered list of rules (a regex
`pattern`, a regex-substitution `replacement`, a per-rule `enabled` flag)
behind a master switch `globalEnabled`. The worker answers typed commands
from the panel (GET_STATE, SET_GLOBAL_ENABLED, ADD_RULE, UPDATE_RULE,
DELETE_RULE, TOGGLE_RULE), saves the new state, and resynchronises the
browser's declarative request-filtering engine: it removes every installed
dynamic rule and, when the switch is on, installs one redirect descriptor per
enabled rule, numbered 1..n.

Modules, one per concept:

- `Wrappers` (`wrappers.dfy`): `Option`.
- `Rules` (`rules.dfy`): `RuleId`, `Rule`, `State`, `Updates`, the default
  state and `Load`, and predicates on rule lists (`HasId`, `FirstMatch`,
  `UniqueIds`, `SameIds`).
- `RuleStore` (`rule_store.dfy`): the pure transition behind each mutating
  command.
- `FilterEngine` (`filter_engine.dfy`): descriptors (`DescriptorId` is a
  separate datatype from `RuleId`), the fixed priority and resource-type list,
  and the engine operations the worker calls (enumerate ids, bulk remove,
  bulk add) over an installed list.
- `Synchronizer` (`synchronizer.dfy`): the translation of a state into
  descriptors and the sync step.
- `Dispatcher` (`dispatcher.dfy`): commands, replies, the environment
  (persisted state plus installed descriptors), the message handler and the
  startup sync.

UPDATE_RULE and TOGGLE_RULE with an unknown id neither save nor resync
(background.js:102-109, 120-124). DELETE_RULE always saves and resyncs, even
when nothing was deleted (background.js:113-115). GET_STATE on a first run
replies with the default state without saving it (background.js:76-80).

## Model

| member | source | states |
|---|---|---|
| Rules.Load | background.js:13-16 | a missing stored value yields the default state, switched on with no rules; a stored value is returned as is |
| RuleStore.ApplyUpdates | background.js:103-106 | a supplied pattern or replacement replaces the rule's, an absent one keeps it; id and enabled flag are kept |
| Synchronizer.Describe | background.js:43-60 | the descriptor has the given engine id, priority 1, a redirect to the rule's replacement, the rule's pattern as filter and 12 resource types |
| RuleStore.FindIndex | background.js:101 | the index found is that of the first rule with the id; None exactly when no rule has it |
| RuleStore.FindIndexFollowsIds | background.js:119-121 | lists with the same ids at the same places have the same first match, so editing or toggling does not move it |
| RuleStore.SetGlobalEnabled | background.js:82-83 | only the master switch changes, to the value given |
| RuleStore.AddRule | background.js:88-95 | exactly one rule is appended, enabled, with the clock id and the given strings; earlier rules stay as a prefix; the switch is unchanged |
| RuleStore.AddFreshKeepsUnique | background.js:89-95 | with a clock value no rule carries, ids stay unique after an addition |
| RuleStore.UpdateRule | background.js:100-110 | only the first rule with the id gets the supplied fields; length, order, ids, other rules and switch are unchanged; an absent id changes nothing |
| RuleStore.SameIdsKeepUnique | background.js:103-106 | an edit that leaves ids in place keeps them unique |
| RuleStore.WithoutId | background.js:113 | no rule with the id survives; with the id absent the list is unchanged; never longer |
| RuleStore.WithoutIdMembers | background.js:113 | the survivors are exactly the rules whose id differs |
| RuleStore.WithoutIdConcat | background.js:113 | filtering distributes over concatenation, so the relative order of survivors is kept |
| RuleStore.WithoutIdKeepsUnique | background.js:113 | deletion keeps ids unique |
| RuleStore.DeleteRule | background.js:112-113 | every rule with the id is removed, every other rule kept; the switch is unchanged |
| RuleStore.DeleteIdempotent | background.js:112-116 | deleting twice equals deleting once |
| RuleStore.DeleteAbsent | background.js:112-116 | deleting an absent id leaves the state unchanged |
| RuleStore.ToggleRule | background.js:118-125 | only the first rule with the id has its flag inverted; nothing else changes; an absent id changes nothing |
| RuleStore.ToggleInvolution | background.js:121 | toggling the same id twice is the identity |
| FilterEngine.InstalledIds | background.js:26-27 | one id per installed descriptor, in order |
| FilterEngine.RemoveRules | background.js:29-33 | exactly the installed descriptors whose id is not listed survive |
| FilterEngine.RemoveRulesConcat | background.js:29-33 | removal distributes over concatenation, so survivors keep their installation order |
| FilterEngine.AddRules | background.js:62-66 | the new descriptors follow the old ones, which are kept |
| FilterEngine.RemoveCoveredClears | background.js:29-33 | removing ids that cover every installed descriptor empties the engine |
| FilterEngine.RemoveInstalledClears | background.js:26-33 | removing all ids the engine reports empties it, whatever it held |
| Synchronizer.EnabledRules | background.js:41-42 | the selection holds only enabled rules of the list |
| Synchronizer.EnabledRulesConcat | background.js:41-42 | selection distributes over concatenation, so list order is kept |
| Synchronizer.EnabledRulesComplete | background.js:42 | every enabled rule is selected |
| Synchronizer.Translate | background.js:41-60 | the fused walk equals filter-then-number: one descriptor per enabled rule, the k-th from the k-th enabled rule with id next + k |
| Synchronizer.Sync | background.js:24-67 | after the remove, stop, add steps the engine holds exactly the desired list for the state, independent of what was installed |
| Synchronizer.SyncIgnoresPrevious | background.js:26-33 | two different prior installed sets give the same result |
| Synchronizer.SyncIdempotent | background.js:24-67 | syncing twice with an unchanged state equals syncing once |
| Synchronizer.KillSwitch | background.js:35-38 | with the master switch off nothing is installed, whatever the rules' own flags |
| Synchronizer.SyncInstallsEnabledRules | background.js:41-60 | with the switch on, the k-th descriptor has id k+1, priority 1, a redirect to the k-th enabled rule's replacement, its pattern as filter and the 12 fixed resource types |
| Synchronizer.SyncIdsDistinct | background.js:43-44 | installed descriptor ids are pairwise distinct |
| Synchronizer.SyncDescriptorsFromRules | background.js:41-53 | each installed descriptor filters by the pattern and redirects to the replacement of some enabled rule of the state |
| Synchronizer.SyncCoversEnabledRules | background.js:41-60 | every enabled rule of an enabled state is installed |
| Synchronizer.SingleRuleExample | background.js:41-60 | one enabled example rule gives exactly one descriptor with its filter and substitution |
| Dispatcher.HandleMessage | background.js:75-130 | unknown types reply with the error and touch nothing; GET_STATE touches nothing; a state reply is the transition's result and, when anything changed, is what was saved and synced; UPDATE and TOGGLE of an absent id change nothing |
| Dispatcher.Startup | background.js:132-142 | the startup sync leaves storage alone and the engine consistent with it |
| Dispatcher.HandlePreservesConsistency | background.js:75-130 | every command keeps the engine consistent with storage |
| Dispatcher.HandleKeepsUniqueIds | background.js:88-116 | rule ids stay unique under every command when the ADD_RULE clock value is fresh |
| Dispatcher.AddRuleAddsOneFreshRule | background.js:88-98 | ADD_RULE replies with one more rule, enabled, with an id not present before, and saves it |
| Dispatcher.DeleteTwiceIsOnce | background.js:112-116 | a second identical DELETE_RULE changes nothing and gives the same reply |
| Dispatcher.ToggleTwiceRestores | background.js:118-125 | two TOGGLE_RULEs restore the loaded state and reply with it |
| Dispatcher.UpdateAbsentIsNoOp | background.js:100-110 | UPDATE_RULE of an absent id replies with the loaded state and changes neither storage nor engine |
| Dispatcher.FirstRun | background.js:7-16 | with nothing stored the reply is the default state (on, no rules), nothing is saved, and startup leaves the engine empty |
| Dispatcher.TwoAddsExample | background.js:88-98 | two additions at distinct clock values give two rules in insertion order with distinct ids |

## Left out

- Storage reads and writes (background.js:13-21) are a value: `Env.stored`, `None` when never written, which `Rules.Load` maps to the default. A stored value that is present but falsy, and the sharing of one mutable default object between calls, are not modelled.
- The filter engine calls (background.js:26-33, 62-66) are pure operations on an installed list. The engine's own regex checking, its duplicate-id checks and whether it rejects one descriptor or the whole batch are not modelled.
- `Date.now()` (background.js:90) is the parameter `now`. Fresh ids are a hypothesis of the uniqueness lemmas, because the clock can repeat a value.
- Message transport and async plumbing (background.js:70-73, 133-142) are left out. So is the lost-update race between concurrent commands: each command is one atomic step.
- Patterns and replacements are opaque strings. Regex syntax and substitution semantics are not modelled.
- RuleStore.UpdateRule: the JS spreads the whole `updates` object over the rule. The model admits only optional `pattern` and `replacement`, the fields the panel sends. An `updates` object that carries `id` or `enabled` would overwrite them in the JS but cannot be expressed here.
- Message fields are typed. A non-boolean `enabled`, or a `ruleId` of another JS type that `===` would never match, cannot be expressed.
- panel.js (rendering, form checks, the `RegExp` validity check, modals) is not part of this model.

# PyraCMS core logic in Dafny

This project models three independent pieces of PyraCMS and proves properties of them.

- **The front-end plugin registry** (`pyracms-cpp-port/frontend/src/plugins/registry.ts`).
  - State: a catalog of plugins keyed by `metadata.id`, in registration order, and the set of active ids, in the order in which they last became active (JavaScript `Set` insertion order); activating an already active plugin reruns its hook but does not move it.
  - Operations: strict `register`, idempotent `unregister`, and `activate` / `deactivate`, which await the plugin's lifecycle hook before they change the active set.
  - Queries: `getPlugin`, `getAllPlugins`, `getActivePlugins`, and the route, navigation and data-model aggregates. `getAllNavigation` is a stable sort by `order || 0`.
- **The forum plugin fixture** (`forum-example.ts`). It is written out as a constant and runs end to end through the registry.
- **The GitHub Actions lint rules** of `tools/workflow_diagnose.py`. They run over an already-loaded YAML value:
  - how a finding is printed;
  - how `on:` becomes a trigger list;
  - how an action reference is judged;
  - which findings a job and a workflow produce.
- **The server's command-line loop** (`pyracms-cpp-port/backend/src/main.cpp`, lines 12-26). It includes `std::stoi` for the port value. `stoi`'s exceptions escape `main` uncaught.

Modules:

| module | file | contents |
|---|---|---|
| `Wrappers` | wrappers.dfy | `Option`, `Result`, `Outcome` |
| `Sequences` | sequences.dfy | flattening, filtering, insertion-ordered set operations (the JavaScript `Set`), first-match lookup in name/value entries (object literals and `dict`s) |
| `StableSort` | stable_sort.dfy | insertion sort by an integer key; sortedness, permutation, stability and uniqueness |
| `PluginTypes` | plugin_types.dfy | the descriptor datatypes and `createPlugin` |
| `PluginRegistry` | plugin_registry.dfy | the registry state, its operations and queries, and the invariant over any run of calls |
| `ForumExample` | forum_example.dfy | the forum fixture and its properties |
| `Decimal` | decimal.dfy | decimal numerals, shared by Python's `str(int)` and `std::stoi` |
| `Yaml` | yaml.dfy | loaded YAML values, `dict.get` with a default, truthiness, `str()` |
| `WorkflowDiagnose` | workflow_diagnose.dfy | findings and the analyzers |
| `ServerArgs` | server_args.dfy | `std::stoi` and the argument loop |

Conventions:

- **Lifecycle hooks.** A hook is asynchronous code whose effect lies outside the registry. It is modelled by its outcome alone: a `HookOutcome` argument says whether it resolves or rejects. That outcome is consulted only when the plugin has the hook. Each registry step reports the hooks it awaited, so "no hook ran" can be stated.
- **Opaque values.** Lazy component loaders, API handlers, icons and hook functions are `Deferred` tokens.
- **Keyed object literals.** JavaScript object literals keyed by name are sequences of name/value pairs in literal order.
- **Cardinality.** The fixture's relation cardinality `'many-to-one'` is outside the declared union. It is kept as an extra `ManyToOne` constructor, which the registry never reads.

`getActivePlugins` walks the active `Set` (registry.ts:148-152). It therefore returns plugins in the order in which they last became active (JavaScript `Set` insertion order), not in registration order. Activating an already active plugin reruns its hook but does not move it. A plugin deactivated and then activated again moves to the end. The navigation aggregate's tie order follows from this as well: it is the concatenation order over the active plugins in that order.

## Model

| member | source | states |
|---|---|---|
| PluginTypes.CreatePlugin | pyracms-cpp-port/frontend/src/plugins/registry.ts:172-175 | the builder returns its argument unchanged, so the registry key `metadata.id` is the one written |
| PluginRegistry.Register | pyracms-cpp-port/frontend/src/plugins/registry.ts:102-107 | fails with "already registered" exactly when the id is in the catalog; otherwise `getPlugin(id)` returns the plugin, other ids and the active set are untouched, the plugin is appended to `getAllPlugins`, and validity is kept |
| PluginRegistry.RegisterAppendsLast | pyracms-cpp-port/frontend/src/plugins/registry.ts:106 | a new plugin goes at the end of `getAllPlugins`, after every plugin registered before it (`Map.set` insertion order) |
| PluginRegistry.Unregister | pyracms-cpp-port/frontend/src/plugins/registry.ts:109-112 | the id leaves the catalog and the active set; every other id keeps its plugin and active status; `getAllPlugins` loses exactly that plugin and keeps the others in order (`Map.delete`); an unknown id changes nothing; validity is kept |
| PluginRegistry.UnregisterRemovesContributions | pyracms-cpp-port/frontend/src/plugins/registry.ts:109-112 | unregistering drops exactly that plugin from the active plugins, the others keeping their order, and the route, data-model and navigation aggregates then come from the remaining plugins |
| PluginRegistry.Activate | pyracms-cpp-port/frontend/src/plugins/registry.ts:114-125 | an unknown id fails "not found" with no hook run and no change; the hook runs iff the plugin has `onActivate`; success iff the hook is absent or resolves; a rejection propagates and leaves the state unchanged; a new id is appended to the active set, and an already-active id keeps its place |
| PluginRegistry.Deactivate | pyracms-cpp-port/frontend/src/plugins/registry.ts:127-138 | an unknown id fails "not found" with no hook run; `onDeactivate` runs even for an inactive plugin; a rejection leaves the plugin active; on success the id is no longer active, and an inactive plugin leaves the state as it was |
| PluginRegistry.GetPlugin | pyracms-cpp-port/frontend/src/plugins/registry.ts:140-142 | a plugin is returned iff the id is registered, and it is the catalog entry with that id |
| PluginRegistry.AllPlugins | pyracms-cpp-port/frontend/src/plugins/registry.ts:144-146 | every registered plugin, active or not, in registration order, each being what `getPlugin` returns for its id |
| PluginRegistry.ActivePlugins | pyracms-cpp-port/frontend/src/plugins/registry.ts:148-152 | in a valid registry, exactly one catalog entry per active id, at the same position as that id in the active set |
| PluginRegistry.AllRoutes | pyracms-cpp-port/frontend/src/plugins/registry.ts:154-156 | a route is in the aggregate iff some active plugin lists it; a missing list counts as empty |
| PluginRegistry.AllDataModels | pyracms-cpp-port/frontend/src/plugins/registry.ts:164-166 | a data model is in the aggregate iff some active plugin lists it; a missing list counts as empty |
| PluginRegistry.AllNavigation | pyracms-cpp-port/frontend/src/plugins/registry.ts:158-162 | a permutation of the concatenated navigation items, sorted ascending by `order` (missing as 0), with items of equal order in concatenation order |
| PluginRegistry.AllNavigationIsTheStableSort | pyracms-cpp-port/frontend/src/plugins/registry.ts:158-162 | any sorted arrangement of the concatenated items that keeps equal-order items in their order is the navigation aggregate |
| StableSort.SortBy | pyracms-cpp-port/frontend/src/plugins/registry.ts:161 | the sort keeps length and multiset, yields a key-sorted sequence, and keeps the relative order within each key |
| StableSort.StableSortUnique | pyracms-cpp-port/frontend/src/plugins/registry.ts:161 | two sorted sequences that keep every key's elements in the same order are equal, so a stable sort's result is determined |
| Sequences.SetAdd | pyracms-cpp-port/frontend/src/plugins/registry.ts:124 | `Set.add`: membership gains the element; an element already present changes nothing; a new one goes at the end; no duplicates arise |
| Sequences.SetRemove | pyracms-cpp-port/frontend/src/plugins/registry.ts:137 | `Set.delete`: membership loses exactly the element, an absent element changes nothing, no duplicates arise, and the elements before and after the removed one keep their order |
| PluginRegistry.Apply | pyracms-cpp-port/frontend/src/plugins/registry.ts:102-138 | `register` and `unregister` await no hook; `unregister` never fails; a failing call leaves the registry unchanged; validity is kept |
| PluginRegistry.RunPreservesValid | pyracms-cpp-port/frontend/src/plugins/registry.ts:99-138 | after any sequence of calls and hook outcomes, ids are unique, active ids are unique, and every active id is registered |
| PluginRegistry.ReachableIsValid | pyracms-cpp-port/frontend/src/plugins/registry.ts:99-100 | every state reachable from a fresh registry satisfies that invariant |
| PluginRegistry.ActivateAppendsContributions | pyracms-cpp-port/frontend/src/plugins/registry.ts:114-166 | activating a registered, inactive plugin appends it to the active plugins and its routes, models and navigation items to the unsorted aggregates |
| PluginRegistry.DeactivateRemovesContributions | pyracms-cpp-port/frontend/src/plugins/registry.ts:127-166 | a successful deactivation removes exactly that plugin from the active plugins, keeping the others in order, and the aggregates draw on the remaining plugins only |
| ForumExample.ForumPluginIsItsLiteral | pyracms-cpp-port/frontend/src/plugins/forum-example.ts:14-21 | `forumPlugin` is the literal handed to `createPlugin`, and its id is `"forum"` |
| ForumExample.ForumRoutes | pyracms-cpp-port/frontend/src/plugins/forum-example.ts:24-43 | three routes `/forum`, `/forum/topic/:id` and `/forum/new-topic`, in that order; only the last requires authentication |
| ForumExample.ForumNavigation | pyracms-cpp-port/frontend/src/plugins/forum-example.ts:46-54 | one navigation item: "Forum" at `/forum`, order 10, no authentication |
| ForumExample.ForumDataModels | pyracms-cpp-port/frontend/src/plugins/forum-example.ts:57-145 | three data models ForumCategory, ForumTopic and ForumPost, in that order, each with all five endpoints |
| ForumExample.ForumRelations | pyracms-cpp-port/frontend/src/plugins/forum-example.ts:83-133 | the four relation fields are required many-to-one references to ForumCategory, User, ForumTopic and User |
| ForumExample.ForumHooksAndSettings | pyracms-cpp-port/frontend/src/plugins/forum-example.ts:148-178 | `onInstall`, `onActivate` and `onDeactivate` are present, `onUninstall` and API extensions are absent, and the setting defaults are 20, false and true |
| ForumExample.ForumEndToEnd | pyracms-cpp-port/frontend/src/plugins/forum-example.ts:14-179 | on a fresh registry, registering runs no hook; activating awaits `onActivate` and yields the three models, the routes and the navigation item; deactivating awaits `onDeactivate` and yields no model while the plugin stays registered |
| ForumExample.ForumRejectedActivation | pyracms-cpp-port/frontend/src/plugins/registry.ts:114-125 | a rejecting `onActivate` propagates its reason, and the forum contributes nothing |
| WorkflowDiagnose.Format | tools/workflow_diagnose.py:33-37 | the text starts with the upper-cased severity in brackets and a space |
| WorkflowDiagnose.FormatRoundTrip | tools/workflow_diagnose.py:33-37 | for a bracket-free severity and a one-line message, the upper-cased severity, the message and the context (only when non-empty) can be read back from the text |
| WorkflowDiagnose.NormalizeTriggers | tools/workflow_diagnose.py:97-106 | `None` gives no triggers; a list gives each item's `str()` in order; a string gives itself; a mapping gives its keys in order; any other scalar gives its `str()` |
| WorkflowDiagnose.TriggerFormsAgree | tools/workflow_diagnose.py:97-106 | `on: push`, `on: [push]` and `on: {push: ...}` all give the one trigger `push` |
| WorkflowDiagnose.AfterLastAt | tools/workflow_diagnose.py:119 | the ref is a suffix with no `@`, preceded by `@` unless it is the whole text |
| WorkflowDiagnose.AfterLastAtSplits | tools/workflow_diagnose.py:119 | splitting `owner@ref` at the last `@` gives `ref`, whatever `owner` contains |
| WorkflowDiagnose.MajorOnlyForms | tools/workflow_diagnose.py:120 | `d` and `vd` match `v?\d+` for any non-empty digit run `d`; `v`, `vd.0` and `Vd` do not |
| WorkflowDiagnose.MajorOnlyShape | tools/workflow_diagnose.py:120 | a major-only ref starts with `v` or a digit, and every later character is a digit |
| WorkflowDiagnose.AnalyzeActionPin | tools/workflow_diagnose.py:109-132 | the rules apply in order: a local `./` reference is never flagged; a reference without `@` is "not pinned"; otherwise the ref after the last `@` is flagged as major-only or as a mutable branch, or accepted; every finding is a warning whose context is the reference |
| WorkflowDiagnose.PinVerdictByRef | tools/workflow_diagnose.py:119-132 | a remote `owner@ref` is flagged iff `ref` is major-only or `main`/`master`/`HEAD`, with the major-only message taking precedence |
| WorkflowDiagnose.LocalActionExample | tools/workflow_diagnose.py:110-111 | `./local/action@main` is not flagged although it names a branch |
| WorkflowDiagnose.MajorPinExample | tools/workflow_diagnose.py:120-125 | `actions/checkout@v4` gets the major-version warning |
| WorkflowDiagnose.BranchPinExample | tools/workflow_diagnose.py:126-131 | `actions/checkout@main` gets the mutable-branch warning |
| WorkflowDiagnose.ExactPinExample | tools/workflow_diagnose.py:119-132 | `actions/checkout@v4.1.1` is accepted |
| WorkflowDiagnose.StepFinding | tools/workflow_diagnose.py:137-142 | a step yields a finding iff it is a mapping whose `uses` is a string that `analyze_action_pin` flags, and the finding is that verdict |
| WorkflowDiagnose.AnalyzeSteps | tools/workflow_diagnose.py:135-143 | at most one finding per step, all of them warnings |
| WorkflowDiagnose.AnalyzeStepsSingle | tools/workflow_diagnose.py:137-142 | the findings of one step are its step finding |
| WorkflowDiagnose.StepFindingsArePins | tools/workflow_diagnose.py:135-143 | every finding of `analyze_steps` is `analyze_action_pin` of the `uses` string of one of the steps |
| WorkflowDiagnose.FlaggedStepsReported | tools/workflow_diagnose.py:135-143 | every mapping step whose string `uses` is flagged contributes that finding |
| WorkflowDiagnose.AnalyzeStepsAppend | tools/workflow_diagnose.py:135-143 | the findings of two runs of steps are the findings of each, in step order |
| WorkflowDiagnose.NonMappingStepsIgnored | tools/workflow_diagnose.py:168-169 | filtering out non-mapping steps before the analysis changes no finding |
| WorkflowDiagnose.StepsOf | tools/workflow_diagnose.py:168-169 | the steps iterated are the items of a `steps` list, and none otherwise |
| WorkflowDiagnose.AnalyzeJob | tools/workflow_diagnose.py:146-178 | the summary keeps the job id; the name is `str()` of the job's `name`, `runs-on`, `permissions` and `concurrency` are the job's values; missing ones default to the job id, `(not specified)`, `None` and `None` |
| WorkflowDiagnose.JobFindings | tools/workflow_diagnose.py:153-169 | the info findings are the missing-permissions note (iff `permissions` is absent or null) and then the fail-fast note (iff `strategy` is a mapping whose `fail-fast` is exactly `true`); the warnings are the step findings; no info follows a warning; no finding has any other severity, so the list is exactly the notes followed by the step warnings |
| WorkflowDiagnose.JobWithMajorPinExample | tools/workflow_diagnose.py:146-169 | a job with permissions set and one step using `actions/checkout@v4` has exactly the major-version warning |
| WorkflowDiagnose.AnalyzeJobs | tools/workflow_diagnose.py:205-209 | at most one summary per job; which ones, and what each holds, is stated by the two lemmas below |
| WorkflowDiagnose.JobsKeepMapOrder | tools/workflow_diagnose.py:205-209 | the job ids of the summaries are the keys of the jobs with mapping bodies, in map order |
| WorkflowDiagnose.JobSummariesAreJobAnalyses | tools/workflow_diagnose.py:205-209 | there is one summary per job with a mapping body, and the `i`-th is `analyze_job` of the `i`-th such job |
| WorkflowDiagnose.AnalyzeMapping | tools/workflow_diagnose.py:183-218 | the name is `str()` of `name`, defaulting to the file stem; the triggers normalise `on`; the permissions are the document's; the jobs are the analyses of a `jobs` mapping and none otherwise; the findings are exactly the permissions note when permissions are `None`, followed by the `pull_request_target` warning when that trigger is listed |
| WorkflowDiagnose.AnalyzeWorkflowAsWritten | tools/workflow_diagnose.py:181-187 | the analysis raises exactly when the loaded document is truthy but not a mapping |
| WorkflowDiagnose.ListDocumentRaises | tools/workflow_diagnose.py:182-183 | a document that is a list raises, where the corrected analysis names it after its file |
| WorkflowDiagnose.AnalyzeWorkflow | tools/workflow_diagnose.py:181-218 | a mapping document is analysed by its entries, and a non-mapping document as an empty mapping |
| WorkflowDiagnose.AsWrittenAgrees | tools/workflow_diagnose.py:181-218 | wherever the code as written returns, it returns the corrected analysis |
| WorkflowDiagnose.EmptyWorkflow | tools/workflow_diagnose.py:92-94 | an empty or non-mapping document is named after its file, with no triggers or jobs and only the missing-permissions note |
| Sequences.Get | tools/workflow_diagnose.py:147-151 | `dict.get` finds a value iff the key is present, and the value is stored under that key |
| Yaml.GetFindsTheEntry | tools/workflow_diagnose.py:147-151 | in a dict with unique keys, `get` returns the one value stored under the key |
| Yaml.OrEmpty | tools/workflow_diagnose.py:94 | `value or {}`: a truthy value is kept, and a false one becomes an empty mapping |
| Yaml.PyStr | tools/workflow_diagnose.py:101 | `str()` of a string is itself, of `None` is `None`, of a boolean is `True`/`False`, of an integer its decimal numeral |
| ServerArgs.StoI | pyracms-cpp-port/backend/src/main.cpp:22 | `std::stoi`: `invalid_argument` iff no digit follows the white space and optional sign; `out_of_range` iff there are digits but their signed value lies outside `int`; otherwise that signed value |
| ServerArgs.StoIReadsIntText | pyracms-cpp-port/backend/src/main.cpp:22 | any `int` written in decimal, optionally followed by non-digit text, reads back as itself |
| ServerArgs.StoIRejectsEmpty | pyracms-cpp-port/backend/src/main.cpp:22 | an empty port value is `invalid_argument` |
| ServerArgs.StoIRejectsNonNumeral | pyracms-cpp-port/backend/src/main.cpp:22 | text starting with something other than white space, a sign or a digit is `invalid_argument` |
| ServerArgs.StoIRejectsOverflow | pyracms-cpp-port/backend/src/main.cpp:22 | a numeral above the `int` maximum is `out_of_range`, not a wrapped value |
| ServerArgs.StoIRejectsUnderflow | pyracms-cpp-port/backend/src/main.cpp:22 | a negative numeral below the `int` minimum is `out_of_range` |
| ServerArgs.StoISkipsLeadingSpace | pyracms-cpp-port/backend/src/main.cpp:22 | leading white space does not change the result |
| ServerArgs.ParseCommandLine | pyracms-cpp-port/backend/src/main.cpp:12-26 | the loop as written yields the configuration of the two-stage reading, or the uncaught `stoi` error of the first bad port value |
| ServerArgs.NoArgumentsGivesDefaults | pyracms-cpp-port/backend/src/main.cpp:12-14 | with no arguments, host `0.0.0.0`, port 8080 and the default PostgreSQL URL |
| ServerArgs.ProgramNameIgnored | pyracms-cpp-port/backend/src/main.cpp:17 | `argv[0]` never affects the result |
| ServerArgs.UnrecognisedSkipped | pyracms-cpp-port/backend/src/main.cpp:17-26 | an argument other than the three flags is skipped without error |
| ServerArgs.ValueNeverReinterpreted | pyracms-cpp-port/backend/src/main.cpp:19-24 | the element after a flag is its value even when it looks like a flag |
| ServerArgs.HostThenPortExample | pyracms-cpp-port/backend/src/main.cpp:19-20 | `--host --port` sets the host to `--port` |
| ServerArgs.TrailingFlagIgnored | pyracms-cpp-port/backend/src/main.cpp:19-24 | a flag with no value after it changes nothing |
| ServerArgs.LastOccurrenceWins | pyracms-cpp-port/backend/src/main.cpp:17-26 | a flag repeated at the end sets its setting to the last value; a bad last port value ends in its `stoi` error; an earlier error stands |

## Left out

- The React pages, the layout and the UI test are presentation only.
- The axios client (`lib/api.ts`) is HTTP and browser I/O.
- The type-only declarations (`types/index.ts`) and the C++ headers have no behaviour.
- The C++ server, database, authentication and user handlers are stubs, placeholders or I/O, as is everything in `main.cpp` after line 26.
- The interleaving of concurrent `activate` / `deactivate` calls is not modelled. Each hook is one atomic outcome, and each call completes before the next starts.
- Registered plugin objects are taken to be immutable values. The catalog key is the plugin's `metadata.id` at registration (registry.ts:106). A caller that mutates `plugin.metadata` after registering, which the shared object reference allows, would desynchronise key and plugin; the model cannot express that.
- What a lifecycle hook does is not modelled, and `onInstall` / `onUninstall` are never called by the registry. Component loaders, handlers, icons and `default: any` values are opaque tokens.
- Navigation `order` is an integer. Fractional orders and `NaN`, which JavaScript numbers allow, are not modelled.
- `discover_workflows`, `load_yaml`'s file reading and parsing, `run_diagnostics`, `print_report` and `main` are filesystem, PyYAML, standard output and argparse.
- `JobSummary.format` and `WorkflowSummary.format` are printing only. The path is reduced to the file stem the name defaults to.
- YAML values are limited to null, booleans, integers, strings, lists and string-keyed mappings. Floats, dates and non-string keys are outside the model. So is YAML 1.1 reading a bare `on` key as `true`.
- PyYAML collapses duplicate keys; the model does not. A mapping is taken to hold each key once, as a Python `dict` does.
- Yaml.PyStr: `str()` of lists and mappings uses single quotes around strings but not Python's quote selection or escaping. Scalars are exact.
- WorkflowDiagnose.Upper: upper-cases ASCII letters only, not Python's full Unicode `str.upper`. `\d` is read as ASCII digits.
- WorkflowDiagnose.AnalyzeJobs: its own contract only bounds the length. What it returns is stated by the lemmas JobsKeepMapOrder and JobSummariesAreJobAnalyses.

## Findings

| source | as written | input that shows it | evidently intended | confidence | as-written member | corrected member |
|---|---|---|---|---|---|---|
| tools/workflow_diagnose.py:182-187 | `data.get("name", ...)` is called on the loaded document before the `isinstance(data, Mapping)` checks two lines later, so a truthy non-mapping document raises `AttributeError` | a workflow file whose whole content is the list `- build` | a document that is not a mapping is analysed like an empty one, as the later `isinstance` checks and the `or {}` default suggest | medium; not executed | WorkflowDiagnose.AnalyzeWorkflowAsWritten (exhibited by WorkflowDiagnose.ListDocumentRaises) | WorkflowDiagnose.AnalyzeWorkflow (with WorkflowDiagnose.AsWrittenAgrees and WorkflowDiagnose.EmptyWorkflow) |

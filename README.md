# meteor-verify, modelled in Dafny

meteor-verify is a rule-verification engine for Meteor. Named *verifiers* (rules) are
registered once per process. Each has a predicate, a list of rules it `implies`, a list
of rules it `uses`, and `impliedFor` back-edges. Named *fetchers* and *default values*
say how missing data is obtained.

A `Verifier` context is created per evaluation. It holds the data set on it and which
keys were fetched, two cycle-guard stacks (the fetch path and the verify path), and a
memo of rule results. `verify(names)` decides rules dependency-first, recording each
result once. `get(key)` resolves data lazily through fetchers and defaults. At startup,
a depth-first walk over the `uses` edges rejects circular rule dependencies and produces
a topological order of the rules.

The model has seven modules:

- `Common`: sequence, set and string helpers. These are `_.uniq`, joining, the elements
  of a sequence, and cardinality lemmas for the termination measures.
- `Values`: the JavaScript values the engine distinguishes (truthiness, the three
  absent values, objects with an `_id`) and the error kinds it raises.
- `Rules`: rule definitions and the process-wide `Registry` class with its
  registration methods. Registration is specified by pure functions on the rule table.
- `GraphCheck`: the startup cycle check and topological sort (`checkForLoops.js`), as
  methods over the `uses` graph.
- `Semantics`: what each operation of a context does, as a function of the context's
  state (a `State` value) and the registry's tables. `SetSpec`, `GetSpec`, `FetchSpec`,
  `VerifySpec`, `VerifiesSpec` and the rest are mutually recursive, with a
  lexicographic termination measure. The main part of the measure is the number of
  registered rules, or of fetchers, not on the corresponding path. Their contracts and
  the lemmas beside them carry the properties of the engine.
- `Verification`: the `Context` class (`Verifier.prototype`). Its fields are the
  source's; its methods update them step by step, with loops where the source has them.
  Each method is proved to end in exactly the state, and with exactly the outcome, that
  its `Semantics` function (`GetSpec` for `Get`, and so on) gives for the state it
  started in.
- `Findings`: the defects of the source, modelled as written, each next to a lemma
  that exhibits it.

`Semantics.IsSet` (`isSet`), `Semantics.IsFetched` (`_isFetched`), `Semantics.Lookup`,
`Semantics.DefaultFor` (the value `_setDefaultValueFor` passes to `set`) and
`Semantics.EntryCheck` (the skip and cycle tests of `verify`) are plain definitions
that the contracts are written in. So are `Findings.FailedReasonAsWritten` and
`Findings.MissingDataReasonAsWritten`, the 412 and 404 messages as written; the lemmas
beside them say what is wrong with them.

Predicates, fetchers and default producers are arbitrary user code in the source. Here
they are oracles:

- A predicate is a fixed list of nested calls on its context (`get`, `getId`,
  `verifies` and `verify`), made in order, plus a total function of the data map and
  their results. That function returns a value or throws any error, a
  `Verifier.Error` included. A failing nested call ends the predicate with an error.
- A fetcher is the same, with `get` calls only. The data map it sees holds the stored
  string it expands.
- A default producer is a function of the data map.

Two ghost fields of the context record what the proofs need: `evalOrder`, the order in
which rule predicates returned, and `seen`, what each memoised rule's predicate saw.
The invariant `ValidIn` says four things. No rule on the verify path has a result.
Every result belongs to a registered rule. Every rule's implied rules were decided
before it. Every memo entry is what the rule's own predicate returned on the run
recorded for it. The operations only add to the memo (`Grows`), so an entry, once
written, never changes.

The model follows the code exactly in these details, which are easy to miss:

- `isSet` is truthiness, so a stored `0`, `false` or `""` counts as unset. `set` marks
  every non-string value fetched, so `get` does not call the fetcher again for a stored
  `0` or `false`: it takes the default, or raises the 404 when there is none. Only a
  `""` stored for a key that has a fetcher is fetched again.
- `verify` skips a rule that has any memoised result, a falsy one included. So
  verifying a rule that failed earlier in the same context succeeds.
- The current verifier is set before the memo and cycle checks. It is not restored
  when a rule is skipped, unknown or cyclic; it is restored only after a rule was
  entered.
- `_setDefaultValueFor` ignores a falsy literal default. Because such a default is
  still registered, `get` raises no 404 for it and returns the stored value.
- The startup driver calls `visit` on every registered rule, including ones an earlier
  walk already visited. The `sorted.indexOf` guard keeps them from being added twice.
- The startup check visits the rules in the registry's `order` field, which is the
  order the rules were first registered in. JavaScript enumerates an object's keys in
  that order, except for keys that are array indices (see "## Left out").

## Model

| member | source | states |
|---|---|---|
| Common.Dedupe | verify.js:127 | `_.uniq`: the result has no duplicates and exactly the elements of the input, and is no longer than the input |
| Common.DedupeKeepsDuplicateFree | verify.js:127 | applied to a duplicate-free list, `_.uniq` returns it unchanged |
| Values.IdOf | verify.js:415-418 | `getId`'s extraction: a TypeError exactly for `undefined` and `null`; an object's truthy `_id` is returned; strings and anything without a truthy `_id` are returned as they are |
| Rules.Normalize | verify.js:125-127 | defaults fill in missing parts, the rule is well formed, its `uses` holds exactly its declared uses and implies, and a given predicate is kept |
| Rules.ApplyBackEdgesAt | verify.js:131-138 | the back-edge loop keeps the table's keys; it adds `x` to a target's `implies` and `uses` only when the target is registered and does not yet use `x`; every other rule is unchanged |
| Rules.RegisteredAt | verify.js:124-138 | after `registerVerifier(name, def)` the table has one more key at most, `name` holds the normalised rule, and every other rule gains `name` exactly when it is a registered, listed target not already using it |
| Rules.RegisteredTargetsImply | verify.js:131-138 | each registered target listed in `impliedFor` uses `name` afterwards, and implies it unless it already used it |
| Rules.AddEdgeWellFormed | verify.js:133-136 | pushing a new name onto both `implies` and `uses` keeps a rule well formed |
| Rules.RegisteredWellFormed | verify.js:124-138 | registration keeps every rule well formed: stored under its name, `uses` duplicate-free and covering `implies` |
| Rules.RegisterIdempotent | verify.js:124-138 | registering the same definition twice gives the same table as registering it once |
| Rules.RegisteredAllWellFormed | verify.js:110-116 | registering a batch in order keeps every rule well formed |
| Rules.BindAt | verify.js:154-159 | a batch of fetchers or defaults binds exactly the listed keys and the keys bound before; a listed key holds the value of its last entry; an unlisted key keeps its value |
| Rules.Registry.constructor | verify.js:75-78 | the registry starts with empty tables |
| Rules.Registry.RegisterVerifier | verify.js:124-148 | the table becomes `Registered(old table, name, def)`, a new name is appended to the key order, the other tables are unchanged, and the registry stays valid |
| Rules.OrderAll | verify.js:110-116 | the key order after a batch keeps the old order as a prefix; when the old order listed exactly the registered names once, the new one lists exactly the names registered afterwards, each once |
| Rules.Registry.RegisterVerifiers | verify.js:110-116 | the table becomes the in-order registration of the batch, the key order becomes `OrderAll` of the old order (each name appended at its first registration), other tables unchanged |
| Rules.Registry.RegisterFetcher | verify.js:166-168 | only the fetcher table changes, binding `name` |
| Rules.Registry.RegisterFetchers | verify.js:154-159 | the fetcher table becomes the in-order binding of the batch |
| Rules.Registry.SetDefaultValue | verify.js:101-103 | only the default table changes, binding `name` |
| Rules.Registry.SetDefaultValues | verify.js:90-95 | the default table becomes the in-order binding of the batch |
| Rules.Registry.CheckForLoops | checkForLoops.js:8-37 | the error is the one the walk's outcome calls for; it is none exactly when the uses graph is acyclic and every used rule is registered, and then `sorted` holds every registered rule once, each after all the rules it uses; a reported cycle comes with a real path of uses edges ending at the rule that uses the repeated one; a dangling outcome names a rule and a use of it that is not registered; a walk stopped early leaves a partial `sorted` that is still duplicate-free, topological and made of registered rules |
| GraphCheck.Visit | checkForLoops.js:19-35 | on every outcome `sorted` only grows and stays duplicate-free and topological; a finished `visit` leaves its node sorted, with the walk invariant (sorted is topological, duplicate-free, and holds every visited node off the ancestor path); a cycle report carries a real path from the ancestors to the rule and an edge back into it; visited and sorted only grow |
| GraphCheck.CheckForLoops | checkForLoops.js:10-17 | on every outcome the order is duplicate-free, topological and made of nodes of the graph; on success the order is topological, holds exactly the registered rules once, and the graph is acyclic and closed; a reported cycle is a real cycle; a closed graph is never reported as dangling |
| GraphCheck.TopologicalIsAcyclic | checkForLoops.js:19-35 | a graph that has a duplicate-free topological order covering all its nodes has no cycle |
| GraphCheck.BackEdgeIsCycle | checkForLoops.js:26-28 | an edge from the end of a path back to a node on it closes a cycle, so the error is thrown only on cyclic registries |
| GraphCheck.PathDescends | checkForLoops.js:24-34 | along any path, positions in a topological order strictly decrease |
| GraphCheck.TopologicalExtend | checkForLoops.js:34 | appending a node whose dependencies are all sorted keeps the order topological and duplicate-free |
| GraphCheck.Finish | checkForLoops.js:34 | the post-order append (guarded by `indexOf`) adds the node at most once and restores the walk invariant for the parent's ancestors |
| Semantics.Swallows | verify.js:370-374 | the two-step normalisation of `dontThrow` comes to: failures are swallowed exactly when `dontThrow` is `true`, or when it is neither `true` nor `false` and both paths are empty |
| Semantics.FailedReasonInjective | verify.js:487 | the intended failure message identifies the failed rule |
| Semantics.MissingDataReasonNamesRule | verify.js:383 | the intended 404 message identifies the rule that asked for the data |
| Semantics.FailureOfFalsy | verify.js:486-488 | the 412 failure naming a rule with a falsy memo entry is recorded: no other rule's name gives the same error |
| Semantics.DecideEffectOutcome | verify.js:478-488 | after a rule is decided, it succeeded exactly when it has a truthy result, and a falsy result is the 412 failure naming it |
| Semantics.FailureAfterPrefix | verify.js:455-491 | a failure at one name after every earlier name was decided, with the earlier results kept, is a failure of the whole loop at that position |
| Semantics.DecidedStep | verify.js:455-491 | one more name decided, with earlier results kept, extends the decided prefix of the loop |
| Semantics.DecidedAll | verify.js:455-491 | a loop whose every position was decided leaves every name registered and with a result |
| Semantics.DepFirstExtend | verify.js:474-479 | recording a rule after all its implied rules keeps the memo dependency-first |
| Semantics.PushKeepsMemoValid | verify.js:474 | pushing a rule that has no result and is not on the path keeps the memo invariant |
| Semantics.PopKeepsMemoValid | verify.js:481-482 | popping the verify path keeps the memo invariant |
| Semantics.RecordKeepsMemoValid | verify.js:478-482 | popping and recording a rule whose implied rules have results keeps the memo invariant and extends the memo without changing earlier entries |
| Semantics.RecordKeepsJustified | verify.js:478-479 | recording what a rule's own predicate returned, with the run it saw, keeps every memo entry tied to its rule's predicate |
| Semantics.SetSpec | verify.js:338-352 | `undefined`, `null` and `NaN` change nothing; any other value is stored under the key, which is then set exactly when the value is truthy and marked fetched exactly when the value is not a string or the key has no fetcher; no other key's entries change; field names are recorded only with field optimisation, for a non-string value of a key with a fetcher; paths and memo are kept and no key is removed |
| Semantics.DefaultSpec | verify.js:206-215 | a default that gives a value other than `undefined`, `null` and `NaN` stores it under the key, and no other key's entries change; otherwise nothing changes; paths and memo are kept |
| Semantics.StoreSpec | verify.js:257-260 | the truthy fetched value is stored under the key, which is set and marked fetched even for a string; the data gains exactly this key and no other key's entries change; paths and memo are kept |
| Semantics.FetchSpec | verify.js:230-263 | with no fetcher, or already fetched, nothing changes and the stored value is given when truthy, `undefined` otherwise; a key on the fetch path gives the cycle error naming the path and changes nothing; otherwise the fetcher ran as recorded, its failure is exactly the 412 error naming the key and the cause (with `undefined`), and a truthy result is stored and marked fetched; paths and memo are kept and no key is removed |
| Semantics.FetchNewSpec | verify.js:247-262 | the fetcher ran as recorded: its `get`s and then its own result or thrown error; a failure is exactly the 412 error naming the key and the cause, with `undefined`; a truthy result is stored and marked fetched; the fetch path is as before, so it was popped on every exit; the memo is kept |
| Semantics.RunFetcherSpec | verify.js:250 | the fetcher's `get`s run in order from the start state, and it ends in the state they leave, having seen the data there and their values; a failing `get`'s error is its error unchanged; otherwise its value or thrown error is what `produce` gives |
| Semantics.GetsSpec | verify.js:250 | there is a value for every `get` exactly when none failed, and fewer otherwise; a failure is a fetch cycle, a 412 or a 404; paths and memo are kept |
| Semantics.GetSpec | verify.js:369-397 | a set and fetched key is returned with nothing changed; an unset key with no fetcher, or one already fetched, takes its default when one is registered and otherwise is the 404 unless swallowed; a key on the fetch path is the cycle error unless swallowed; otherwise the key is fetched as `FetchNewSpec` says: its failure is returned unless swallowed, a truthy value is returned, and a falsy one takes the default or, without one, is the 404 unless swallowed; a swallowed failure gives `undefined`; without a default an unswallowed success is truthy; paths and memo are kept |
| Semantics.GetIdSpec | verify.js:406-419 | a set key or one without a fetcher is read as it is, with nothing changed; otherwise `get` runs first and its failure comes back unchanged; the result is the identifier of the value, or the TypeError for `undefined` and `null`; on success it is the identifier of the stored value |
| Semantics.CallSpec | verify.js:478 | a nested `get` gives what `get` with its own `dontThrow` gives (`GetSpec`), a `getId` what `GetIdSpec` gives, a `verifies` the boolean and error of `VerifiesSpec`, and a `verify` the context object with the error of `VerifySpec`, each in the state that call leaves; every nested call keeps the memo valid and only adds results, keeps the paths, and a 412 failure it raises names a rule with a falsy result |
| Semantics.CallsSpec | verify.js:478 | as `CallSpec`, for a predicate's nested calls in order; there is a value for every call exactly when none failed |
| Semantics.RunPredicateSpec | verify.js:478 | the predicate's nested calls run in order from the start state, and it ends in the state they leave, having seen the data there and their values; a failing call's error is its error unchanged; otherwise its value or thrown error is what `decide` gives; the memo stays valid and only grows; paths are kept |
| Semantics.DecideSpec | verify.js:478-488 | the predicate runs as `RunPredicateSpec` says and the verify path is popped; a returned value is memoised under the rule, and it is the 412 failure naming the rule exactly when the value is falsy; otherwise the rule has no result and the error is that of the predicate unchanged; earlier results are kept and the memo stays valid |
| Semantics.VerifyImpliedSpec | verify.js:476 | on success every implied rule has a result and the rule is still pushed; on failure the rule is popped and has no result, and the failure happened at a position of the implied list whose earlier rules have results; implied rules that were all memoised change nothing but the current rule |
| Semantics.VerifyRuleSpec | verify.js:474-485 | when the implied rules verified, they all have results and the rule is decided as `DecideSpec` says; otherwise the rule has no result and fails where the implied rules failed; memoised implied rules always reach the predicate; success exactly when the rule has a truthy result, and a falsy result is the 412 failure naming it; the paths are as before and earlier results are kept |
| Semantics.VerifyOneSpec | verify.js:455-491 | an unknown rule raises "Verifier not found" and clears the current rule; a memoised rule succeeds and only becomes current; a rule on the verify path raises the circular-dependency error naming the path and becomes current; an entered rule is decided as `VerifyRuleSpec` says and the current rule is restored; on success the rule is registered and has a result |
| Semantics.VerifySpec | verify.js:444-493 | on success every name is registered and has a result; a failure happens at a position whose earlier names all have results, and is "Verifier not found" for an unknown name, the circular-dependency error naming the path for a name being verified, and the 412 naming it for a name that now has a falsy result; the memo stays valid and only grows; paths are kept; names that all have results change nothing but the current rule |
| Semantics.VerifiesSpec | verify.js:426-438 | ends in the state `verify` leaves; `true` exactly when `verify` raised nothing, and then every name has a result; when `verify` failed at a position, a recoverable (`Verifier.Error`) cause gives `false` with no error and any other cause is rethrown unchanged; names that all have results give `true` |
| Semantics.NestedErrorRethrown | verify.js:426-438 | for a rule whose implied rules have results and whose predicate first calls `get`: when that `get` fails with an error `verifies` does not recover from, `verifies([rule])` does not give `true` and rethrows exactly that error |
| Semantics.GetsNext | verify.js:250 | a fetcher's `get`s one at a time: the next one starts in the state the previous one left; when it fails the whole sequence ends in the state it left, with its error unchanged; otherwise its value is appended |
| Semantics.CallsNext | verify.js:478 | a predicate's nested calls one at a time, as `GetsNext` says for a fetcher's `get`s |
| Semantics.VerifyNext | verify.js:455-491 | the loop of `verify` one name at a time: the next name starts in the state the previous one left; when it fails the loop ends there, in the state it left, with its error and at its position; otherwise the loop goes on from that state |
| Semantics.SetAllKeys | verify.js:28-30 | setting the data entries in order leaves the key of every entry whose value is not absent in the data |
| Semantics.SetAllAt | verify.js:28-30 | after the data entries are set in order, a key holds the value of its last entry that is not absent, or, without one, the value it had |
| Semantics.VerifyDataSpec | verify.js:25-37 | the memo is valid and both paths are empty at the end; on success with `reset` true or left out, data, flags, fields and results are empty; on success with `reset` false every rule has a result; a failure happened at a position whose earlier rules have results; whenever the context is not cleaned, the key of every data entry whose value is not absent is still in the data |
| Verification.Context.constructor | verify.js:7-13 | a new context has empty data, flags, paths and results, the default options unless given, and a valid memo |
| Verification.Context.Clean | verify.js:178-204 | data, flags, fields, paths and results are reset; options are replaced only when given; the current rule is kept; the memo is valid |
| Verification.Context.Set | verify.js:338-352 | ends in exactly the state `Semantics.SetSpec` gives |
| Verification.Context.SetDefaultValueFor | verify.js:206-215 | ends in exactly the state `Semantics.DefaultSpec` gives |
| Verification.Context.Fetch | verify.js:230-263 | ends in exactly the state, value and error `Semantics.FetchSpec` gives, with its record of the fetcher's run |
| Verification.Context.FetchNew | verify.js:247-262 | ends in exactly the state, value and error `Semantics.FetchNewSpec` gives |
| Verification.Context.Store | verify.js:257-260 | ends in exactly the state `Semantics.StoreSpec` gives |
| Verification.Context.RunFetcher | verify.js:250 | the loop over the fetcher's `get`s ends in exactly the state, value and error `Semantics.RunFetcherSpec` gives |
| Verification.Context.Get | verify.js:369-397 | ends in exactly the state, value and error `Semantics.GetSpec` gives |
| Verification.Context.GetId | verify.js:406-419 | ends in exactly the state, value and error `Semantics.GetIdSpec` gives |
| Verification.Context.Call | verify.js:478 | one nested call of a predicate ends in exactly the state, value and error `Semantics.CallSpec` gives |
| Verification.Context.RunPredicate | verify.js:478 | the loop over the predicate's nested calls ends in exactly the state, value and error `Semantics.RunPredicateSpec` gives |
| Verification.Context.Verifies | verify.js:426-438 | ends in exactly the state and outcome `Semantics.VerifiesSpec` gives |
| Verification.Context.VerifyRule | verify.js:474-485 | ends in exactly the state and error `Semantics.VerifyRuleSpec` gives |
| Verification.Context.VerifyImplied | verify.js:476 | ends in exactly the state and error `Semantics.VerifyImpliedSpec` gives |
| Verification.Context.Decide | verify.js:477-488 | ends in exactly the state and error `Semantics.DecideSpec` gives |
| Verification.Context.Verify | verify.js:444-493 | the loop over the names ends in exactly the state and error `Semantics.VerifySpec` gives |
| Verification.Context.VerifyOne | verify.js:455-491 | ends in exactly the state and error `Semantics.VerifyOneSpec` gives |
| Verification.VerifyData | verify.js:25-37 | a fresh context on the registry ends in exactly the state and error `Semantics.VerifyDataSpec` gives |
| Findings.VerifyErrorAsWritten | verify.js:383 | as written, the 404 and the 412 failure (verify.js:487) are a ReferenceError, which `verifies` does not recover from |
| Findings.VerifiesRethrowsAsWritten | verify.js:426-438 | the as-written errors are not recoverable, while the intended 404 and 412 errors are |
| Findings.FailedReasonMisnamesAsWritten | verify.js:483-487 | as written, the failure message never names the rule that failed |
| Findings.FailedReasonLosesRuleAsWritten | verify.js:487 | as written, two different failing rules give the same message; the intended messages differ |
| Findings.MissingDataReasonLosesRuleAsWritten | verify.js:383 | as written, two rules asking for the same unresolvable key give the same message; the intended messages differ |
| Findings.PathAfterEnterAsWritten | verify.js:474-485 | as written, a failed implied verification leaves the path one longer, with the old path as its prefix and the rule `n` on top |
| Findings.RetryReportsCycleAsWritten | verify.js:470-476 | as written, verifying the rule again then reports a circular dependency |
| Findings.FetchErrorAsWritten | verify.js:250 | as written, every fetch fails with a 412 error |
| Findings.CurrentAfterLoopAsWritten | verify.js:456-468 | as written, after a loop the current verifier is the name at the last position where a memoised name was skipped, some skipped name whenever one was skipped, and what it was before when every name was entered |
| Findings.RuleDecidedAsWritten | verify.js:476-479 | as written, the predicate that runs for a rule is its own when no implied rule was skipped, and otherwise that of the last skipped implied rule; for a rule that does not imply itself, it is its own exactly when none was skipped |
| Findings.MemoisedImpliedRuleDecidedAsWritten | verify.js:476-479 | a rule `A` that implies an already memoised `B` runs `B`'s predicate instead of its own |
| Findings.RecordAsWritten | verify.js:479 | as written, a predicate's value is recorded under whichever rule is current after the nested `verify` calls; only that entry changes |
| Findings.PredicateVerifiesOverwritesAsWritten | verify.js:478-479 | a rule `A` whose predicate calls `verifies('B')` for an already memoised `B` overwrites `B`'s result with its own value, and `A` gets none |

## Left out

- Field optimisation (`_calcFields`, `_expandVerifiers`, `_getFieldsFor`, `_removeResult`) is broken in the source and left out, so `verify` ignores the `optimizeFields` option. `set` still records a value's keys, as it does in the source.
- `Meteor.makeErrorType`, `Meteor.Error` and `sanitizedError` are framework code. Errors are one datatype with a numeric code and a reason. `ErrorText` gives the error's message, without the `Error: ` prefix that JavaScript's string conversion adds.
- `Meteor.startup` is framework code; the startup check is an operation of the registry.
- The bodies of predicates, fetchers and default producers are user code, such as database lookups, and are oracles. A default producer sees only the data map and makes no nested `get`.
- A predicate's or fetcher's nested calls are fixed in advance. Calls whose arguments depend on earlier results are not modelled, and neither is user code that catches the error of a nested call and goes on: the first failing call ends it.
- A fetcher's nested calls are `get` only. A fetcher calling `getId`, `verify` or `verifies` is not modelled.
- Rule names that are array indices (such as `"0"`) are enumerated by JavaScript before all other keys, in ascending order. `order` keeps registration order for every name, so the startup walk order for such names is not modelled.
- `_init` mutates the shared `Verifier.DEFAULT_OPTIONS` through `_.extend`. This JavaScript aliasing is not modelled: a new context defaults to `optimizeFields = false`.
- The constructor guard at verify.js:9 (`!this instanceof Verifier`) is always false. Calling `Verifier` without `new` is not modelled.
- `verify` and `verifies` accept a single name as well as an array. The model takes a sequence.
- The commented-out inverse-verifier code is left out.
- JavaScript numbers are integers here; fractions and infinities are not modelled.
- Semantics.VerifySpec: does not state where the current rule ends up after the loop. Each iteration's effect on it is stated by `VerifyOneSpec`.
- Semantics.VerifyDataSpec: states that every key set from the data is still present when the context is not cleaned, not that it keeps the value it was set to. A string stored for a key with a fetcher is meant to be replaced by what the fetcher produces.

## Findings

| source | as written | input that shows it | evidently intended | confidence | as-written member | corrected member |
|---|---|---|---|---|---|---|
| verify.js:383 | `new Verify.Error(404, …)` refers to an undefined global, so a ReferenceError is thrown | any `get` of a key with no fetcher and no default inside a verification; `verifies` then rethrows | a `Verifier.Error` 404, which `verifies` turns into `false` | not executed | Findings.VerifyErrorAsWritten | Semantics.GetSpec |
| verify.js:487 | `new Verify.Error(412, …)` refers to an undefined global | a rule whose predicate returns `false`, checked through `verifies` | a `Verifier.Error` 412, which `verifies` turns into `false` | not executed | Findings.VerifyErrorAsWritten | Semantics.DecideSpec |
| verify.js:487 | the message is built after verify.js:483 restored the current verifier, and concatenates a verifier object | once `Verify.Error` is read as `Verifier.Error`, rule `A` failing at the top level gives "Verifier failed: undefined" | "Verifier failed: A" | not executed | Findings.FailedReasonMisnamesAsWritten | Semantics.FailedReasonInjective |
| verify.js:383 | the 404 message concatenates `_currentVerifier`, the verifier object, which renders as `[object Object]` | once `Verify.Error` is read as `Verifier.Error`, rules `A` and `B` asking for the same unresolvable key `k` both give "Verifier [object Object] requires unresolvable data: k" | "Verifier A requires unresolvable data: k" | not executed | Findings.MissingDataReasonLosesRuleAsWritten | Semantics.MissingDataReasonNamesRule |
| verify.js:476 | the nested `verify` of the implied rules is outside the `try`/`finally` that pops the path and restores `_currentVerifier` | `A` implies an unregistered rule; `verify(['A'])` fails, and a second `verify(['A'])` reports a circular dependency | the path is popped and the current rule restored on every exit | not executed | Findings.RetryReportsCycleAsWritten | Semantics.VerifyImpliedSpec |
| verify.js:250 | the fetcher is called with an undeclared `fields` | any key with a registered fetcher | the fetcher is called and its result stored | not executed | Findings.FetchErrorAsWritten | Semantics.FetchNewSpec |
| verify.js:476-479 | the nested `verify` leaves `_currentVerifier` at its last skipped name, and the parent then runs and records that rule | `B` verified earlier, then `verify(['A'])` with `A` implying `[B]`: `B`'s predicate runs again, overwrites `B`'s result, and `A` gets none | the parent's own predicate runs and is recorded under its name | not executed | Findings.MemoisedImpliedRuleDecidedAsWritten | Semantics.VerifyRuleSpec |
| verify.js:479 | the result is recorded under `this._currentVerifier.name`, which a nested `verifies` or `verify` the predicate made leaves at the last memoised name it skipped | `B` verified earlier to `true`; then `verify(['A'])` where `A`'s predicate calls `this.verifies('B')` and returns `false`: `B`'s memo entry becomes `false` and `A` gets none | the value is recorded under the rule whose predicate ran, and earlier memo entries never change | not executed | Findings.PredicateVerifiesOverwritesAsWritten | Semantics.DecideSpec |

/** Places where verify.js does not do what it evidently means to, modelled as written,
    each with a lemma that exhibits the difference. The rest of the model follows the
    intended behaviour (see the `Semantics` module). */
module Findings {
  import opened Common
  import opened Values
  import opened Semantics

  /** verify.js:383 and verify.js:487: `new Verify.Error(...)` reads an undefined global,
      so the runtime throws this in place of the 404 and the 412 error alike. */
  function VerifyErrorAsWritten(): (e: Error)
    ensures !Recoverable(e)
  {
    RuntimeFault("ReferenceError: Verify is not defined")
  }

  /** As written, `verifies` over a rule that needs unresolvable data or whose predicate
      returns a falsy value rethrows instead of returning `false`; as intended, both are
      `Verifier.Error`s, which `verifies` turns into `false`. */
  lemma VerifiesRethrowsAsWritten(current: Option<string>, k: string, n: string)
    ensures !Recoverable(VerifyErrorAsWritten())
    ensures Recoverable(VerifierError(404, MissingDataReason(current, k)))
    ensures Recoverable(VerifierError(412, FailedReason(n)))
  {
  }

  /** verify.js:487: the message for the failure of rule `n` is built after verify.js:483
      restored the current verifier to the caller's, so it names the caller's verifier
      object (rendered as `[object Object]`) or `undefined`, and not `n`. */
  function FailedReasonAsWritten(n: string, previous: Option<string>): string {
    "Verifier failed: " + (if previous.Some? then "[object Object]" else "undefined")
  }

  /** The message as written never names the failing rule `n` (unless `n` happens to be
      one of the two renderings). */
  lemma FailedReasonMisnamesAsWritten(n: string, previous: Option<string>)
    requires n != "undefined" && n != "[object Object]"
    ensures FailedReasonAsWritten(n, previous) != FailedReason(n)
  {
    var shown := if previous.Some? then "[object Object]" else "undefined";
    assert FailedReasonAsWritten(n, previous) == FailedReason(shown);
    if FailedReason(n) == FailedReason(shown) {
      FailedReasonInjective(n, shown);
    }
  }

  /** Two different rules failing at the top level give the same message as written,
      while the intended messages tell them apart. */
  lemma FailedReasonLosesRuleAsWritten()
    ensures FailedReasonAsWritten("A", None) == FailedReasonAsWritten("B", None)
    ensures FailedReason("A") != FailedReason("B")
  {
    if FailedReason("A") == FailedReason("B") {
      FailedReasonInjective("A", "B");
    }
  }

  /** verify.js:383: the 404 message concatenates `_currentVerifier`, which holds the
      verifier object (rendered as `[object Object]`) or nothing, and not its name. */
  function MissingDataReasonAsWritten(current: Option<string>, k: string): string {
    "Verifier " + (if current.Some? then "[object Object]" else "undefined") + " requires unresolvable data: " + k
  }

  /** Two rules asking for the same unresolvable key give the same message as written,
      while the intended messages tell them apart. */
  lemma MissingDataReasonLosesRuleAsWritten(k: string)
    ensures MissingDataReasonAsWritten(Some("A"), k) == MissingDataReasonAsWritten(Some("B"), k)
    ensures MissingDataReason(Some("A"), k) != MissingDataReason(Some("B"), k)
  {
    if MissingDataReason(Some("A"), k) == MissingDataReason(Some("B"), k) {
      MissingDataReasonNamesRule("A", "B", k);
    }
  }

  /** verify.js:474-485: the nested `verify` of the implied rules runs after the push and
      outside the `try`/`finally` that pops, so when it throws the rule stays on the path. */
  function PathAfterEnterAsWritten(path: seq<string>, n: string, impliedFailed: bool): (r: seq<string>)
    ensures |r| == |path| + (if impliedFailed then 1 else 0)
    ensures r[..|path|] == path
    ensures impliedFailed ==> r[|path|] == n
  {
    if impliedFailed then path + [n] else path
  }

  /** After rule `A`'s implied rules failed at the top level, verifying `A` again is
      reported as a circular dependency as written; the intended path is empty again. */
  lemma RetryReportsCycleAsWritten()
    ensures EntryCheck(map[], PathAfterEnterAsWritten([], "A", true), "A") == CycleFound
    ensures EntryCheck(map[], PathAfterEnterAsWritten([], "A", false), "A") == Enter
  {
  }

  /** verify.js:250: the fetcher is called with an undeclared `fields`, so each call
      throws before the fetcher runs, and `_fetch` turns that into a 412 error. */
  function FetchErrorAsWritten(k: string): (e: Error)
    ensures e.MeteorError? && e.code == 412
  {
    MeteorError(412, FetchFailedReason(k, RuntimeFault("ReferenceError: fields is not defined")))
  }

  /** How one iteration of the loop of verify.js:455-491 ended without error. */
  datatype Iteration = Skipped | Entered

  /** Position `j` is the last one at which a memoised name was skipped. */
  predicate LastSkipped(kinds: seq<Iteration>, j: int) {
    0 <= j < |kinds| && kinds[j] == Skipped && forall i :: j < i < |kinds| ==> kinds[i] == Entered
  }

  /** The rule `_currentVerifier` names after the loop has run over `names` without
      error, as written: a memoised name stays current (verify.js:458, 466-468) and an
      entered one is restored to what was current before it (verify.js:483). */
  function CurrentAfterLoopAsWritten(initial: Option<string>, names: seq<string>, kinds: seq<Iteration>): (r: Option<string>)
    requires |kinds| == |names|
    ensures (forall i :: 0 <= i < |kinds| ==> kinds[i] == Entered) ==> r == initial
    ensures r == initial || exists i :: 0 <= i < |names| && kinds[i] == Skipped && r == Some(names[i])
    ensures |names| > 0 && kinds[|names| - 1] == Skipped ==> r == Some(names[|names| - 1])
    ensures forall j :: LastSkipped(kinds, j) ==> r == Some(names[j])
    ensures (exists i :: 0 <= i < |kinds| && kinds[i] == Skipped) ==>
              exists i :: 0 <= i < |names| && kinds[i] == Skipped && r == Some(names[i])
    decreases |names|
  {
    if names == [] then initial
    else if kinds[|names| - 1] == Skipped then Some(names[|names| - 1])
    else CurrentAfterLoopAsWritten(initial, names[..|names| - 1], kinds[..|kinds| - 1])
  }

  /** The rule whose predicate verify.js:478 calls, and under whose name verify.js:479
      records the result, once the implied rules of `n` were verified, as written. */
  function RuleDecidedAsWritten(n: string, implies: seq<string>, kinds: seq<Iteration>): (r: string)
    requires |kinds| == |implies|
    ensures (forall i :: 0 <= i < |kinds| ==> kinds[i] == Entered) ==> r == n
    ensures |implies| > 0 && kinds[|implies| - 1] == Skipped ==> r == implies[|implies| - 1]
    ensures forall j :: LastSkipped(kinds, j) ==> r == implies[j]
    ensures n !in implies ==> (r == n <==> forall i :: 0 <= i < |kinds| ==> kinds[i] == Entered)
  {
    CurrentAfterLoopAsWritten(Some(n), implies, kinds).GetOr(n)
  }

  /** A rule `A` that implies an already memoised rule `B`: as written `B`'s predicate runs
      again and overwrites `B`'s memo entry, and `A` is never decided. */
  lemma MemoisedImpliedRuleDecidedAsWritten()
    ensures RuleDecidedAsWritten("A", ["B"], [Skipped]) == "B"
  {
  }

  /** verify.js:479: the memo entry the value `v` of rule `n`'s predicate is recorded
      under, as written, after the nested `verify` calls made since `n` became current
      (those of its implied rules, then those its predicate makes through `verifies` or
      `verify`) visited `visited`. */
  function RecordAsWritten(results: map<string, Value>, n: string, visited: seq<string>, kinds: seq<Iteration>,
                           v: Value): (r: map<string, Value>)
    requires |kinds| == |visited|
    ensures r.Keys == results.Keys + {RuleDecidedAsWritten(n, visited, kinds)}
    ensures RuleDecidedAsWritten(n, visited, kinds) in r && r[RuleDecidedAsWritten(n, visited, kinds)] == v
    ensures forall x :: x in results && x != RuleDecidedAsWritten(n, visited, kinds) ==> x in r && r[x] == results[x]
  {
    results[RuleDecidedAsWritten(n, visited, kinds) := v]
  }

  /** Rule `B` verified earlier to `true`; rule `A` implies nothing and its predicate calls
      `this.verifies('B')` and returns `false`. As written, `A`'s `false` replaces `B`'s
      memo entry and `A` gets none, while the memo is meant to be write-once. */
  lemma PredicateVerifiesOverwritesAsWritten()
    ensures var r := RecordAsWritten(map["B" := Bool(true)], "A", ["B"], [Skipped], Bool(false));
            r == map["B" := Bool(false)] && "A" !in r
  {
    var r := RecordAsWritten(map["B" := Bool(true)], "A", ["B"], [Skipped], Bool(false));
    assert RuleDecidedAsWritten("A", ["B"], [Skipped]) == "B";
    assert r.Keys == {"B"};
  }
}

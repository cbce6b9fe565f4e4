/** The semantics of a verification context (verify.js:170-493) as functions of its state:
    each `...Spec` function gives what the context method of the same name ends with when
    it starts in state `s` with tables `t`, and its contract states what the source
    promises of that operation. The methods of `Verification.Context` are proved equal
    to these functions. */
module Semantics {
  import opened Common
  import opened Values
  import opened Rules

  datatype Options = Options(optimizeFields: bool)

  /** What verify.js:466-472 decides about a registered rule before entering it. */
  datatype Entry = Skip | CycleFound | Enter

  /** The decision of verify.js:466-472 for rule `n`: a rule
      with a result is skipped, one on the verify path is a cycle, any other is entered. */
  function EntryCheck(results: map<string, Value>, path: seq<string>, n: string): (r: Entry)
    ensures r == Skip <==> n in results
    ensures r == CycleFound <==> n !in results && n in path
  {
    if n in results then Skip else if n in path then CycleFound else Enter
  }

  /** Whether `get` swallows a failure and returns `undefined`, computed as verify.js:370-374
      normalises `dontThrow` before the test at verify.js:389 (`None` stands for any value
      other than `true` and `false`): an explicit `true` always swallows, an explicit
      `false` never does, and anything else does only outside every fetch and
      verification. */
  function Swallows(fetchPath: seq<string>, verifyPath: seq<string>, dontThrow: Option<bool>): (r: bool)
    ensures r <==> dontThrow == Some(true) || (dontThrow.None? && fetchPath == [] && verifyPath == [])
  {
    DontThrowCases(dontThrow);
    if fetchPath == [] && verifyPath == [] && dontThrow != Some(false) then true
    else if dontThrow != Some(true) then false
    else true
  }

  /** `dontThrow` is left out, `true` or `false`. */
  lemma DontThrowCases(o: Option<bool>)
    ensures o == None || o == Some(true) || o == Some(false)
  {
    match o
    case None =>
    case Some(b) =>
      if b { assert o == Some(true); } else { assert o == Some(false); }
  }

  /** How an error message names the rule being verified; none is `undefined`. */
  function RuleText(current: Option<string>): string {
    if current.Some? then current.value else "undefined"
  }

  function UnknownRuleMessage(n: string): string {
    "Verifier not found " + n
  }

  /** verify.js:471, kept as written (the closing quote is missing in the source too). */
  function VerifyCycleMessage(path: seq<string>, n: string): string {
    "Circular dependency while verifying '" + n + "', verify path: '" + Join(path, " -> ") + " -> " + n
  }

  /** verify.js:244, kept as written. */
  function FetchCycleMessage(path: seq<string>, k: string): string {
    "Circular dependency while fetching '" + k + "', fetch path: '" + Join(path, " -> ") + " -> " + k
  }

  function FetchFailedReason(k: string, cause: Error): string {
    "Couldn't fetch data for " + k + ", error: " + ErrorText(cause)
  }

  function MissingDataReason(current: Option<string>, k: string): string {
    "Verifier " + RuleText(current) + " requires unresolvable data: " + k
  }

  /** The intended 404 message names the rule that asked for the data. */
  lemma MissingDataReasonNamesRule(a: string, b: string, k: string)
    requires MissingDataReason(Some(a), k) == MissingDataReason(Some(b), k)
    ensures a == b
  {
    var p, q := "Verifier ", " requires unresolvable data: " + k;
    var m := MissingDataReason(Some(a), k);
    assert m == p + a + q && m == p + b + q;
    assert a == m[|p|..|p| + |a|];
    assert b == m[|p|..|p| + |b|];
  }

  function FailedReason(n: string): string {
    "Verifier failed: " + n
  }

  lemma FailedReasonInjective(a: string, b: string)
    requires FailedReason(a) == FailedReason(b)
    ensures a == b
  {
    var p := "Verifier failed: ";
    assert a == FailedReason(a)[|p|..];
    assert b == FailedReason(b)[|p|..];
  }

  /** A 412 failure the engine raised names a rule whose memoised result is falsy (a
      `Verifier.Error` user code throws is a `UserError`, and is not one of these). */
  ghost predicate FailureRecorded(err: Option<Error>, results: map<string, Value>) {
    forall n :: err == Some(VerifierError(412, FailedReason(n))) ==> n in results && !Truthy(results[n])
  }

  lemma FailureOfFalsy(n: string, results: map<string, Value>)
    requires n in results && !Truthy(results[n])
    ensures FailureRecorded(Some(VerifierError(412, FailedReason(n))), results)
  {
    forall m | FailedReason(m) == FailedReason(n) ensures m == n {
      FailedReasonInjective(m, n);
    }
  }

  /** The errors data resolution can raise: a fetch cycle, a wrapped fetcher failure, or
      unresolvable data. */
  ghost predicate FromResolution(e: Error) {
    e.Thrown? || (e.MeteorError? && e.code == 412) || (e.VerifierError? && e.code == 404)
  }

  /** What a fetcher or a predicate saw when it ended: the context's data at that point and
      the results of the nested calls it made, in order. */
  datatype Run = Run(data: map<string, Value>, values: seq<Value>)

  /** Fetcher `f` ran as `run` says and returned `r`, or failed with `cause`: a nested
      `get` failed before all were made, or all were made and `f` produced `r` or threw. */
  ghost predicate FetcherRan(f: Fetcher, run: Run, r: Value, cause: Option<Error>) {
    && |run.values| <= |f.gets|
    && (|run.values| < |f.gets| ==> cause.Some? && FromResolution(cause.value))
    && (|run.values| == |f.gets| ==> match f.produce(run.data, run.values)
                                      case Produced(v) => cause.None? && r == v
                                      case Failed(e) => cause == Some(UserError(e)))
  }

  /** Predicate `p` ran as `run` says and returned `v`, or failed with `err`: a nested call
      failed before all were made, or all were made and `p` returned `v` or threw. */
  ghost predicate PredicateRan(p: Predicate, run: Run, v: Value, err: Option<Error>) {
    && |run.values| <= |p.steps|
    && (|run.values| < |p.steps| ==> err.Some?)
    && (|run.values| == |p.steps| ==> match p.decide(run.data, run.values)
                                       case Returned(x) => err.None? && v == x
                                       case Raised(e) => err == Some(UserError(e)))
  }

  /** Predicate `p` of rule `n` returned on `run`. */
  ghost predicate Returns(p: Predicate, run: Run) {
    |run.values| == |p.steps| && p.decide(run.data, run.values).Returned?
  }

  /** What deciding rule `n` with predicate `p` leaves: when `p` returned, its value is
      memoised for `n` and a falsy one is the 412 failure naming `n`; otherwise `n` has no
      result and the failure is `p`'s (or that of a nested call it made). */
  ghost predicate DecideEffect(p: Predicate, n: string, run: Run, results: map<string, Value>, err: Option<Error>) {
    if Returns(p, run) then
      && n in results && results[n] == p.decide(run.data, run.values).value
      && err == if Truthy(results[n]) then None else Some(VerifierError(412, FailedReason(n)))
    else
      && n !in results && err.Some? && |run.values| <= |p.steps|
      && (|run.values| == |p.steps| ==> err == Some(UserError(p.decide(run.data, run.values).error)))
  }

  lemma DecideEffectOutcome(p: Predicate, n: string, run: Run, results: map<string, Value>, err: Option<Error>)
    requires DecideEffect(p, n, run, results, err)
    ensures err.None? <==> n in results && Truthy(results[n])
    ensures n in results && !Truthy(results[n]) ==> err == Some(VerifierError(412, FailedReason(n)))
  {
  }

  /** How `verify` fails on rule `n` (verify.js:458-488): an unknown rule, a rule already
      on the verify path, or an entered rule that, if it has a result now, has a falsy one
      and raised the 412 failure naming it. */
  ghost predicate RuleFailure(vs: map<string, Rule>, path: seq<string>, results: map<string, Value>, n: string, e: Error) {
    && (n !in vs ==> e == Thrown(UnknownRuleMessage(n)))
    && (n in vs && n in path ==> e == Thrown(VerifyCycleMessage(path, n)))
    && (n in vs && n !in path && n in results ==> !Truthy(results[n]) && e == VerifierError(412, FailedReason(n)))
  }

  /** The first `i` of `names` are registered rules with a result. */
  ghost predicate Decided(vs: map<string, Rule>, results: map<string, Value>, names: seq<string>, i: nat) {
    i <= |names| && forall j :: 0 <= j < i ==> names[j] in vs && names[j] in results
  }

  /** One more name decided, with the earlier results kept. */
  lemma DecidedStep(vs: map<string, Rule>, r0: map<string, Value>, r1: map<string, Value>, names: seq<string>, i: nat)
    requires Decided(vs, r0, names, i) && Extends(r0, r1) && i < |names|
    requires names[i] in vs && names[i] in r1
    ensures Decided(vs, r1, names, i + 1)
  {
  }

  /** All of `names` decided, stated name by name. */
  lemma DecidedAll(vs: map<string, Rule>, results: map<string, Value>, names: seq<string>)
    requires Decided(vs, results, names, |names|)
    ensures forall n :: n in names ==> n in vs && n in results
  {
    forall n | n in names ensures n in vs && n in results {
      var j :| 0 <= j < |names| && names[j] == n;
    }
  }

  /** `verify(names)` failed at `names[i]`, after every earlier name had a result. */
  ghost predicate VerifyFailure(vs: map<string, Rule>, path: seq<string>, results: map<string, Value>,
                                names: seq<string>, i: nat, e: Error) {
    && i < |names|
    && Decided(vs, results, names, i)
    && RuleFailure(vs, path, results, names[i], e)
  }

  /** A failure at `names[i]` after every earlier name had a result, which stays. */
  lemma FailureAfterPrefix(vs: map<string, Rule>, path: seq<string>, r0: map<string, Value>, r1: map<string, Value>,
                           names: seq<string>, i: nat, e: Error)
    requires i < |names| && Extends(r0, r1)
    requires Decided(vs, r0, names, i)
    requires RuleFailure(vs, path, r1, names[i], e)
    ensures VerifyFailure(vs, path, r1, names, i, e)
  {
  }

  /** Every memoised result is what the rule's own predicate returned, after all its
      nested calls, on the run recorded for it. */
  ghost predicate Justified(vs: map<string, Rule>, results: map<string, Value>, seen: map<string, Run>) {
    forall x :: x in results ==>
      && x in vs && x in seen
      && Returns(vs[x].check, seen[x])
      && vs[x].check.decide(seen[x].data, seen[x].values) == Returned(results[x])
  }

  lemma RecordKeepsJustified(vs: map<string, Rule>, results: map<string, Value>, seen: map<string, Run>,
                             n: string, run: Run)
    requires Justified(vs, results, seen) && n in vs && Returns(vs[n].check, run)
    ensures Justified(vs, results[n := vs[n].check.decide(run.data, run.values).value], seen[n := run])
  {
  }

  /** `order[i]` is a registered rule all of whose implied rules were decided before it. */
  ghost predicate ImpliesBefore(vs: map<string, Rule>, order: seq<string>, i: int)
    requires 0 <= i < |order|
  {
    order[i] in vs && forall d :: d in vs[order[i]].implies ==> d in order[..i]
  }

  ghost predicate DepFirst(vs: map<string, Rule>, order: seq<string>) {
    forall i :: 0 <= i < |order| ==> ImpliesBefore(vs, order, i)
  }

  lemma DepFirstExtend(vs: map<string, Rule>, order: seq<string>, n: string)
    requires DepFirst(vs, order) && n in vs
    requires forall d :: d in vs[n].implies ==> d in order
    ensures DepFirst(vs, order + [n])
  {
    var t := order + [n];
    forall i | 0 <= i < |t| ensures ImpliesBefore(vs, t, i) {
      assert t[..i] == if i < |order| then order[..i] else order;
      if i < |order| { assert ImpliesBefore(vs, order, i); }
    }
  }

  /** The memo is write-once and dependency-first: no rule on the verify path has a
      result yet, every result belongs to a registered rule and was recorded once, after
      those of the rules it implies. */
  ghost predicate MemoValid(vs: map<string, Rule>, path: seq<string>, results: map<string, Value>, order: seq<string>) {
    && NoDup(path)
    && (forall x :: x in path ==> x !in results)
    && (forall x :: x in results ==> x in vs)
    && NoDup(order)
    && (forall x :: x in order <==> x in results)
    && DepFirst(vs, order)
  }

  lemma PushKeepsMemoValid(vs: map<string, Rule>, path: seq<string>, results: map<string, Value>, order: seq<string>, n: string)
    requires MemoValid(vs, path, results, order) && n !in results && n !in path
    ensures MemoValid(vs, path + [n], results, order)
  {
  }

  lemma PopKeepsMemoValid(vs: map<string, Rule>, path: seq<string>, results: map<string, Value>, order: seq<string>, n: string)
    requires MemoValid(vs, path + [n], results, order)
    ensures MemoValid(vs, path, results, order)
  {
    assert forall i :: 0 <= i < |path| ==> (path + [n])[i] == path[i];
    assert forall x :: x in path ==> x in path + [n];
  }

  /** Recording rule `n`'s result once the rules it implies have theirs. */
  lemma RecordKeepsMemoValid(vs: map<string, Rule>, path: seq<string>, results: map<string, Value>, order: seq<string>,
                             n: string, v: Value)
    requires MemoValid(vs, path + [n], results, order) && n in vs
    requires forall d :: d in vs[n].implies ==> d in results
    ensures MemoValid(vs, path, results[n := v], order + [n])
    ensures Extends(results, results[n := v])
  {
    PopKeepsMemoValid(vs, path, results, order, n);
    assert n !in results;
    DepFirstExtend(vs, order, n);
    forall x | x in path ensures x !in results[n := v] {
      var i :| 0 <= i < |path| && path[i] == x;
      assert (path + [n])[i] == x && (path + [n])[|path|] == n;
    }
  }


  /** The tables of the registry a context resolves names in. */
  datatype Tables = Tables(verifiers: map<string, Rule>, fetchers: map<string, Fetcher>,
                           defaults: map<string, DefaultValue>)

  /** A context's state: the fields `_init` sets up (verify.js:178-194), and, as a ghost
      record, the order in which predicates returned and what each memoised one saw. */
  datatype State = State(
    options: Options,
    data: map<string, Value>,
    fetched: map<string, bool>,
    fields: map<string, seq<string>>,
    fetchPath: seq<string>,
    verifyPath: seq<string>,
    results: map<string, Value>,
    current: Option<string>,
    evalOrder: seq<string>,
    seen: map<string, Run>)

  /** The state of `new Verifier(options)` (verify.js:7-13, 178-194). */
  function Fresh(optimizeFields: Option<bool>): State {
    State(Options(optimizeFields.GetOr(false)), map[], map[], map[], [], [], map[], None, [], map[])
  }

  /** The state `clean(options)` leaves (verify.js:196-204): the options are kept unless
      new ones are given; the current rule is not reset. */
  function Cleaned(s: State, optimizeFields: Option<bool>): State {
    State(Options(optimizeFields.GetOr(s.options.optimizeFields)), map[], map[], map[], [], [], map[],
          s.current, [], map[])
  }

  /** `this._data[k]`. */
  function Lookup(data: map<string, Value>, k: string): Value {
    if k in data then data[k] else Undefined
  }

  /** `isSet`, verify.js:359-361: the stored value is truthy, so `0`, `false` and `""`
      count as unset. */
  predicate IsSet(data: map<string, Value>, k: string) {
    k in data && Truthy(data[k])
  }

  /** `_isFetched`, verify.js:284-286: a key never flagged is not fetched. */
  predicate IsFetched(fetched: map<string, bool>, k: string) {
    k in fetched && fetched[k]
  }

  /** What `_setDefaultValueFor(k)` passes to `set` (verify.js:206-215): nothing without a
      registered default (`_hasDefaultValue`, verify.js:280-282) or for a falsy literal,
      a truthy literal itself, and whatever a producer returns on the data. */
  function DefaultFor(defaults: map<string, DefaultValue>, data: map<string, Value>, k: string): (r: Option<Value>)
    ensures k !in defaults ==> r.None?
    ensures k in defaults && defaults[k].Producer? ==> r == Some(defaults[k].produce(data))
    ensures k in defaults && defaults[k].Literal? ==> (r.Some? <==> Truthy(defaults[k].value))
    ensures r.Some? && defaults[k].Literal? ==> r.value == defaults[k].value
  {
    if k !in defaults then None
    else match defaults[k]
      case Literal(v) => if Truthy(v) then Some(v) else None
      case Producer(f) => Some(f(data))
  }

  /** The context invariant: a write-once, dependency-first memo whose every entry is
      what the rule's predicate returned. */
  ghost predicate ValidIn(t: Tables, s: State) {
    MemoValid(t.verifiers, s.verifyPath, s.results, s.evalOrder) && Justified(t.verifiers, s.results, s.seen)
  }

  ghost function VerifyMeasure(t: Tables, s: State): nat {
    |t.verifiers.Keys - Elems(s.verifyPath)|
  }

  ghost function FetchMeasure(t: Tables, s: State): nat {
    |t.fetchers.Keys - Elems(s.fetchPath)|
  }

  ghost predicate PathsKept(s0: State, s1: State) {
    s1.fetchPath == s0.fetchPath && s1.verifyPath == s0.verifyPath && s1.options == s0.options
  }

  ghost predicate MemoKept(s0: State, s1: State) {
    s1.results == s0.results && s1.evalOrder == s0.evalOrder && s1.seen == s0.seen && s1.current == s0.current
  }

  /** Results are only added, and no data key is ever removed. */
  ghost predicate Grows(s0: State, s1: State) {
    Extends(s0.results, s1.results) && s0.evalOrder <= s1.evalOrder && s0.data.Keys <= s1.data.Keys
  }

  /** Only the entries for key `k` differ. */
  ghost predicate OthersKept(s0: State, s1: State, k: string) {
    && s1.data - {k} == s0.data - {k}
    && s1.fetched - {k} == s0.fetched - {k}
    && s1.fields - {k} == s0.fields - {k}
  }

  /** `set(k, v)`, verify.js:338-352: `undefined`, `null` and `NaN` change nothing; any
      other value is stored under `k` and marks it fetched, unless it is a string and `k`
      has a fetcher (a key still to be expanded by fetching); with `optimizeFields` a
      non-string value for a fetched key also records its field names. */
  function SetSpec(t: Tables, s: State, k: string, v: Value): (r: State)
    ensures PathsKept(s, r) && MemoKept(s, r) && s.data.Keys <= r.data.Keys
    ensures Absent(v) ==> r == s
    ensures !Absent(v) ==> && Lookup(r.data, k) == v && (IsSet(r.data, k) <==> Truthy(v))
                           && (IsFetched(r.fetched, k) <==> !(v.Str? && k in t.fetchers))
                           && OthersKept(s, r, k)
    ensures !Absent(v) && s.options.optimizeFields && !v.Str? && k in t.fetchers ==>
              k in r.fields && r.fields[k] == ObjectKeys(v)
    ensures !(s.options.optimizeFields && !v.Str? && k in t.fetchers) ==> r.fields == s.fields
  {
    if Absent(v) then s
    else
      var fields := if s.options.optimizeFields && !v.Str? && k in t.fetchers
                    then s.fields[k := ObjectKeys(v)] else s.fields;
      s.(data := s.data[k := v], fetched := s.fetched[k := !v.Str? || k !in t.fetchers], fields := fields)
  }

  /** `_setDefaultValueFor(k)`, verify.js:206-215: the default, when there is one, is set. */
  function DefaultSpec(t: Tables, s: State, k: string): (r: State)
    ensures PathsKept(s, r) && MemoKept(s, r) && s.data.Keys <= r.data.Keys
    ensures var d := DefaultFor(t.defaults, s.data, k);
            d.Some? && !Absent(d.value) ==> Lookup(r.data, k) == d.value && OthersKept(s, r, k)
    ensures var d := DefaultFor(t.defaults, s.data, k);
            d.None? || Absent(d.value) ==> r == s
  {
    var d := DefaultFor(t.defaults, s.data, k);
    if d.Some? then SetSpec(t, s, k, d.value) else s
  }

  /** verify.js:257-260: a truthy fetched value is set and the key marked fetched, even
      when it is a string. */
  function StoreSpec(t: Tables, s: State, k: string, v: Value): (r: State)
    requires Truthy(v)
    ensures PathsKept(s, r) && MemoKept(s, r)
    ensures Lookup(r.data, k) == v && IsSet(r.data, k) && IsFetched(r.fetched, k)
    ensures OthersKept(s, r, k) && r.data.Keys == s.data.Keys + {k}
  {
    var a := SetSpec(t, s, k, v);
    a.(fetched := a.fetched[k := true])
  }

  /** What `_fetch` ends with: the state, the value and the error it gives back, and (as a
      record) what the fetcher saw and what it failed with. */
  datatype FetchOut = FetchOut(st: State, r: Value, err: Option<Error>, run: Run, cause: Option<Error>)

  /** What `get` ends with; `got`, `run` and `cause` are its fetch's. */
  datatype GetOut = GetOut(st: State, r: Value, err: Option<Error>, got: Value, run: Run, cause: Option<Error>)

  /** The state, value and error of a call that returns a value. */
  datatype ValueOut = ValueOut(st: State, r: Value, err: Option<Error>)

  /** A fetcher's or a predicate's call: its state, value, error and what it saw. */
  datatype RunOut = RunOut(st: State, r: Value, err: Option<Error>, run: Run)

  /** A sequence of nested calls: the state, the values of the calls that returned, and
      the error of the first one that failed. */
  datatype CallsOut = CallsOut(st: State, values: seq<Value>, err: Option<Error>)

  /** `_fetch(k)`, verify.js:230-263: a key without a fetcher, or already fetched, gives
      its truthy stored value (else `undefined`); a key on the fetch path is a cyclic
      fetch; otherwise the fetcher runs (see `FetchNewSpec`). (The source passes an
      undeclared `fields` to the fetcher, which would make every call fail; the fetcher
      here is called as intended.) */
  function FetchSpec(t: Tables, s: State, k: string): (o: FetchOut)
    decreases VerifyMeasure(t, s), 0, FetchMeasure(t, s), 1, 0
    ensures PathsKept(s, o.st) && MemoKept(s, o.st) && s.data.Keys <= o.st.data.Keys
    ensures k !in t.fetchers || IsFetched(s.fetched, k) ==>
              o.st == s && o.err.None? && o.r == (if IsSet(s.data, k) then s.data[k] else Undefined)
    ensures k in t.fetchers && !IsFetched(s.fetched, k) && k in s.fetchPath ==>
              o.st == s && o.r == Undefined && o.err == Some(Thrown(FetchCycleMessage(s.fetchPath, k)))
    ensures k in t.fetchers && !IsFetched(s.fetched, k) && k !in s.fetchPath ==>
              && FetcherRan(t.fetchers[k], o.run, o.r, o.cause)
              && o.err == (if o.cause.None? then None else Some(MeteorError(412, FetchFailedReason(k, o.cause.value))))
              && (o.cause.Some? ==> o.r == Undefined)
              && (o.cause.None? && Truthy(o.r) ==> IsFetched(o.st.fetched, k))
    ensures o.err.None? && Truthy(o.r) ==> Lookup(o.st.data, k) == o.r
  {
    if k !in t.fetchers || IsFetched(s.fetched, k) then
      FetchOut(s, if IsSet(s.data, k) then s.data[k] else Undefined, None, Run(map[], []), None)
    else if k in s.fetchPath then
      FetchOut(s, Undefined, Some(Thrown(FetchCycleMessage(s.fetchPath, k))), Run(map[], []), None)
    else
      FetchNewSpec(t, s, k)
  }

  /** `_fetch(k)` past its checks (verify.js:247-262): the fetcher runs with `k` pushed on
      the fetch path, which is popped whatever it does; its failure is the 412 error
      naming `k` and what it threw, and a truthy result is stored and marked fetched. */
  function FetchNewSpec(t: Tables, s: State, k: string): (o: FetchOut)
    requires k in t.fetchers && k !in s.fetchPath
    decreases VerifyMeasure(t, s), 0, FetchMeasure(t, s), 0, 0
    ensures PathsKept(s, o.st) && MemoKept(s, o.st) && s.data.Keys <= o.st.data.Keys
    ensures FetcherRan(t.fetchers[k], o.run, o.r, o.cause)
    ensures o.err == if o.cause.None? then None else Some(MeteorError(412, FetchFailedReason(k, o.cause.value)))
    ensures o.cause.Some? ==> o.r == Undefined
    ensures o.cause.None? && Truthy(o.r) ==> Lookup(o.st.data, k) == o.r && IsFetched(o.st.fetched, k)
  {
    PushShrinks(t.fetchers.Keys, s.fetchPath, k);
    var f := RunFetcherSpec(t, s.(fetchPath := s.fetchPath + [k]), k);
    var popped := f.st.(fetchPath := s.fetchPath);
    if f.err.Some? then
      FetchOut(popped, Undefined, Some(MeteorError(412, FetchFailedReason(k, f.err.value))), f.run, f.err)
    else if Truthy(f.r) then
      FetchOut(StoreSpec(t, popped, k, f.r), f.r, None, f.run, None)
    else
      FetchOut(popped, f.r, None, f.run, None)
  }

  /** Calling the fetcher registered for `k` with the context as `this`: its nested `get`s
      run in order, and the first failure is its own; otherwise it produces its value
      from the data as they left it and their results. */
  function RunFetcherSpec(t: Tables, s: State, k: string): (o: RunOut)
    requires k in t.fetchers
    decreases VerifyMeasure(t, s), 0, FetchMeasure(t, s), 4, 0
    ensures PathsKept(s, o.st) && MemoKept(s, o.st) && s.data.Keys <= o.st.data.Keys
    ensures FetcherRan(t.fetchers[k], o.run, o.r, o.err)
    ensures var c := GetsSpec(t, s, t.fetchers[k].gets);
            && o.st == c.st && o.run == Run(c.st.data, c.values)
            && (c.err.Some? ==> o.err == c.err)
  {
    var f := t.fetchers[k];
    var c := GetsSpec(t, s, f.gets);
    if c.err.Some? then RunOut(c.st, Undefined, c.err, Run(c.st.data, c.values))
    else match f.produce(c.st.data, c.values)
      case Produced(v) => RunOut(c.st, v, None, Run(c.st.data, c.values))
      case Failed(e) => RunOut(c.st, Undefined, Some(UserError(e)), Run(c.st.data, c.values))
  }

  /** The `get`s a fetcher makes, in order: the values of those that returned, and the
      error of the first that failed, after which no other is made. */
  function GetsSpec(t: Tables, s: State, keys: seq<string>): (o: CallsOut)
    decreases VerifyMeasure(t, s), 0, FetchMeasure(t, s), 3, |keys|
    ensures PathsKept(s, o.st) && MemoKept(s, o.st) && s.data.Keys <= o.st.data.Keys
    ensures |o.values| <= |keys| && (o.err.None? <==> |o.values| == |keys|)
    ensures o.err.Some? ==> FromResolution(o.err.value)
  {
    if keys == [] then CallsOut(s, [], None)
    else
      var g := GetSpec(t, s, keys[0], None);
      if g.err.Some? then CallsOut(g.st, [], g.err)
      else
        var rest := GetsSpec(t, g.st, keys[1..]);
        CallsOut(rest.st, [g.r] + rest.values, rest.err)
  }

  /** The failure `get` raises for unresolvable data (verify.js:383), or none when
      failures are swallowed. */
  function Unresolvable(s: State, k: string, dontThrow: Option<bool>): Option<Error> {
    if Swallows(s.fetchPath, s.verifyPath, dontThrow) then None
    else Some(VerifierError(404, MissingDataReason(s.current, k)))
  }

  /** `get(k, dontThrow)`, verify.js:369-397: a key that is not set, or set but not
      fetched, is fetched; if that yields nothing truthy the default is applied, and
      without a default the data is unresolvable (404). Failures are swallowed as
      `Swallows` says. (The source throws `new Verify.Error`, which names no defined
      type; the intended `Verifier.Error` is raised here.) */
  function GetSpec(t: Tables, s: State, k: string, dontThrow: Option<bool>): (o: GetOut)
    decreases VerifyMeasure(t, s), 0, FetchMeasure(t, s), 2, 0
    ensures PathsKept(s, o.st) && MemoKept(s, o.st) && s.data.Keys <= o.st.data.Keys
    ensures Swallows(s.fetchPath, s.verifyPath, dontThrow) ==> o.err.None?
    ensures o.err.Some? ==> FromResolution(o.err.value)
    ensures o.err.None? ==> o.r == Lookup(o.st.data, k) || (o.r == Undefined && Swallows(s.fetchPath, s.verifyPath, dontThrow))
    ensures IsSet(s.data, k) && IsFetched(s.fetched, k) ==> o.st == s && o.err.None? && o.r == s.data[k]
    ensures (&& (!IsSet(s.data, k) || !IsFetched(s.fetched, k)) && k !in t.defaults && o.err.None?
             && !Swallows(s.fetchPath, s.verifyPath, dontThrow)) ==> Truthy(o.r)
    ensures !IsSet(s.data, k) && (k !in t.fetchers || IsFetched(s.fetched, k)) && k !in t.defaults ==>
              o.st == s && o.r == Undefined && o.err == Unresolvable(s, k, dontThrow)
    ensures !IsSet(s.data, k) && (k !in t.fetchers || IsFetched(s.fetched, k)) && k in t.defaults ==>
              o.err.None? && o.st == DefaultSpec(t, s, k) && o.r == Lookup(o.st.data, k)
    ensures k in t.fetchers && !IsFetched(s.fetched, k) && k in s.fetchPath ==>
              o.st == s && o.r == Undefined &&
              o.err == if Swallows(s.fetchPath, s.verifyPath, dontThrow) then None
                       else Some(Thrown(FetchCycleMessage(s.fetchPath, k)))
    ensures k in t.fetchers && !IsFetched(s.fetched, k) && k !in s.fetchPath ==>
              var f := FetchNewSpec(t, s, k);
              && o.got == f.r && o.run == f.run && o.cause == f.cause
              && FetcherRan(t.fetchers[k], o.run, o.got, o.cause)
              && (o.cause.Some? ==>
                    o.st == f.st && o.r == Undefined &&
                    o.err == if Swallows(s.fetchPath, s.verifyPath, dontThrow) then None else f.err)
              && (o.cause.None? && Truthy(o.got) ==> o.st == f.st && o.err.None? && o.r == o.got)
              && (o.cause.None? && !Truthy(o.got) && k !in t.defaults ==>
                    o.st == f.st && o.r == Undefined && o.err == Unresolvable(s, k, dontThrow))
              && (o.cause.None? && !Truthy(o.got) && k in t.defaults ==>
                    o.st == DefaultSpec(t, f.st, k) && o.err.None? && o.r == Lookup(o.st.data, k))
  {
    if IsSet(s.data, k) && IsFetched(s.fetched, k) then
      GetOut(s, Lookup(s.data, k), None, Undefined, Run(map[], []), None)
    else
      var f := FetchSpec(t, s, k);
      if f.err.Some? then
        GetOut(f.st, Undefined, if Swallows(s.fetchPath, s.verifyPath, dontThrow) then None else f.err,
               f.r, f.run, f.cause)
      else if Truthy(f.r) then
        GetOut(f.st, Lookup(f.st.data, k), None, f.r, f.run, f.cause)
      else if k in t.defaults then
        var d := DefaultSpec(t, f.st, k);
        GetOut(d, Lookup(d.data, k), None, f.r, f.run, f.cause)
      else
        GetOut(f.st, Undefined, Unresolvable(f.st, k, dontThrow), f.r, f.run, f.cause)
  }

  /** `getId` gives back the identifier of `v`, or the error of its not having one. */
  predicate IdReturned(o: ValueOut, v: Value) {
    match IdOf(v)
    case Ok(id) => o.err.None? && o.r == id
    case Err(e) => o.err == Some(e) && o.r == Undefined
  }

  /** `getId(k, dontThrow)`, verify.js:406-419: the key is resolved through `get` only when
      it is unset and has a fetcher, and the identifier of what it then holds is given
      back; `get`'s own failure comes back unchanged. */
  function GetIdSpec(t: Tables, s: State, k: string, dontThrow: Option<bool>): (o: ValueOut)
    decreases VerifyMeasure(t, s), 0, FetchMeasure(t, s), 5, 0
    ensures PathsKept(s, o.st) && MemoKept(s, o.st) && s.data.Keys <= o.st.data.Keys
    ensures o.err.None? ==> IdOf(Lookup(o.st.data, k)) == Ok(o.r)
    ensures IsSet(s.data, k) || k !in t.fetchers ==> o.st == s && IdReturned(o, Lookup(s.data, k))
    ensures !IsSet(s.data, k) && k in t.fetchers ==>
              var g := GetSpec(t, s, k, dontThrow);
              && o.st == g.st
              && (g.err.Some? ==> o.err == g.err && o.r == Undefined)
              && (g.err.None? ==> IdReturned(o, g.r))
    ensures (!IsSet(s.data, k) && k in t.fetchers && !Swallows(s.fetchPath, s.verifyPath, dontThrow) &&
             k !in t.defaults && o.err.None?) ==> Truthy(Lookup(o.st.data, k))
    ensures o.err.Some? ==> FromResolution(o.err.value) || o.err.value.RuntimeFault?
  {
    if !IsSet(s.data, k) && k in t.fetchers then
      var g := GetSpec(t, s, k, dontThrow);
      if g.err.Some? then ValueOut(g.st, Undefined, g.err) else IdValue(g.st, g.r)
    else IdValue(s, Lookup(s.data, k))
  }

  function IdValue(st: State, v: Value): (o: ValueOut)
    ensures o.st == st && IdReturned(o, v)
  {
    match IdOf(v)
    case Ok(id) => ValueOut(st, id, None)
    case Err(e) => ValueOut(st, Undefined, Some(e))
  }

  lemma GrowsTransitive(s0: State, s1: State, s2: State)
    requires Grows(s0, s1) && Grows(s1, s2)
    ensures Grows(s0, s2)
  {
    ExtendsTransitive(s0.results, s1.results, s2.results);
    PrefixTransitive(s0.evalOrder, s1.evalOrder, s2.evalOrder);
  }

  /** The value `this.verify(names)` returns to a predicate: the context object itself. */
  const ContextObject: Value := Obj(Undefined, [])

  /** What `verify` (and the nested `verify` of implied rules) ends with; `failed` is the
      position of the name it failed at. */
  datatype VerifyOut = VerifyOut(st: State, err: Option<Error>, failed: nat)

  /** What `verifies` ends with; `cause` is what `verify` raised. */
  datatype VerifiesOut = VerifiesOut(st: State, ok: bool, err: Option<Error>, cause: Option<Error>, failed: nat)

  /** What one rule of `verify` ends with; `impliedOk` says its implied rules verified
      and `run` is what its predicate saw. */
  datatype RuleOut = RuleOut(st: State, err: Option<Error>, impliedOk: bool, run: Run, failed: nat)

  /** What deciding a rule ends with: the error and what its predicate saw. */
  datatype DecideOut = DecideOut(st: State, err: Option<Error>, run: Run)

  /** One nested call a predicate makes, with the context as `this`. A `verify` gives
      back the context object. */
  function CallSpec(t: Tables, s: State, step: Step): (o: ValueOut)
    requires ValidIn(t, s)
    decreases VerifyMeasure(t, s), 6, 0, 0, 0
    ensures ValidIn(t, o.st) && PathsKept(s, o.st) && Grows(s, o.st)
    ensures FailureRecorded(o.err, o.st.results)
    ensures step.Get? ==> var g := GetSpec(t, s, step.key, step.dontThrow);
                          o.st == g.st && o.r == g.r && o.err == g.err
    ensures step.GetId? ==> o == GetIdSpec(t, s, step.key, step.dontThrow)
    ensures step.Verifies? ==> var c := VerifiesSpec(t, s, step.names);
                               o.st == c.st && o.r == Bool(c.ok) && o.err == c.err
    ensures step.Verify? ==> var v := VerifySpec(t, s, step.names);
                             o.st == v.st && o.r == ContextObject && o.err == v.err
  {
    match step
    case Get(key, dontThrow) =>
      var g := GetSpec(t, s, key, dontThrow);
      ValueOut(g.st, g.r, g.err)
    case GetId(key, dontThrow) => GetIdSpec(t, s, key, dontThrow)
    case Verifies(names) =>
      var c := VerifiesSpec(t, s, names);
      ValueOut(c.st, Bool(c.ok), c.err)
    case Verify(names) =>
      var v := VerifySpec(t, s, names);
      ValueOut(v.st, ContextObject, v.err)
  }

  /** A predicate's nested calls, in order: the values of those that returned, and the
      error of the first that failed, after which no other is made. */
  function CallsSpec(t: Tables, s: State, steps: seq<Step>): (o: CallsOut)
    requires ValidIn(t, s)
    decreases VerifyMeasure(t, s), 7, 0, 0, |steps|
    ensures ValidIn(t, o.st) && PathsKept(s, o.st) && Grows(s, o.st)
    ensures FailureRecorded(o.err, o.st.results)
    ensures |o.values| <= |steps| && (o.err.None? <==> |o.values| == |steps|)
  {
    if steps == [] then CallsOut(s, [], None)
    else
      var c := CallSpec(t, s, steps[0]);
      if c.err.Some? then CallsOut(c.st, [], c.err)
      else
        var rest := CallsSpec(t, c.st, steps[1..]);
        GrowsTransitive(s, c.st, rest.st);
        CallsOut(rest.st, [c.r] + rest.values, rest.err)
  }

  /** Calling rule `n`'s predicate with the context as `this`: its nested calls run in
      order, and the first failure is its own; otherwise it decides on the data as they
      left it and their results. */
  function RunPredicateSpec(t: Tables, s: State, n: string): (o: RunOut)
    requires ValidIn(t, s) && n in t.verifiers
    decreases VerifyMeasure(t, s), 8, 0, 0, 0
    ensures ValidIn(t, o.st) && PathsKept(s, o.st) && Grows(s, o.st)
    ensures FailureRecorded(o.err, o.st.results)
    ensures PredicateRan(t.verifiers[n].check, o.run, o.r, o.err)
    ensures var c := CallsSpec(t, s, t.verifiers[n].check.steps);
            && o.st == c.st && o.run == Run(c.st.data, c.values)
            && (c.err.Some? ==> o.err == c.err)
  {
    var p := t.verifiers[n].check;
    var c := CallsSpec(t, s, p.steps);
    if c.err.Some? then RunOut(c.st, Undefined, c.err, Run(c.st.data, c.values))
    else match p.decide(c.st.data, c.values)
      case Returned(x) => RunOut(c.st, x, None, Run(c.st.data, c.values))
      case Raised(e) => RunOut(c.st, Undefined, Some(UserError(e)), Run(c.st.data, c.values))
  }

  /** Deciding rule `n` (verify.js:479-486), which is on top of the verify path and whose
      implied rules all have results: its predicate runs, the path is popped, and a
      returned value is memoised; a falsy one is the 412 failure naming `n`. */
  function DecideSpec(t: Tables, s: State, n: string, path: seq<string>): (o: DecideOut)
    requires ValidIn(t, s) && n in t.verifiers && s.verifyPath == path + [n]
    requires forall d :: d in t.verifiers[n].implies ==> d in s.results
    decreases VerifyMeasure(t, s), 9, 0, 0, 0
    ensures ValidIn(t, o.st) && o.st.verifyPath == path && o.st.fetchPath == s.fetchPath && o.st.options == s.options
    ensures Grows(s, o.st) && FailureRecorded(o.err, o.st.results)
    ensures DecideEffect(t.verifiers[n].check, n, o.run, o.st.results, o.err)
    ensures var p := RunPredicateSpec(t, s, n);
            o.run == p.run && (p.err.Some? ==> o.err == p.err)
  {
    var p := RunPredicateSpec(t, s, n);
    PopKeepsMemoValid(t.verifiers, path, p.st.results, p.st.evalOrder, n);
    var popped := p.st.(verifyPath := path);
    if p.err.Some? then
      assert (path + [n])[|path|] == n;
      DecideOut(popped, p.err, p.run)
    else
      RecordKeepsMemoValid(t.verifiers, path, p.st.results, p.st.evalOrder, n, p.r);
      RecordKeepsJustified(t.verifiers, p.st.results, p.st.seen, n, p.run);
      var recorded := popped.(results := popped.results[n := p.r], seen := popped.seen[n := p.run],
                              evalOrder := popped.evalOrder + [n]);
      if Truthy(p.r) then DecideOut(recorded, None, p.run)
      else
        FailureOfFalsy(n, recorded.results);
        DecideOut(recorded, Some(VerifierError(412, FailedReason(n))), p.run)
  }

  /** The nested `verify` of the rules `n` implies (verify.js:476), with `n` on top of the
      verify path; the path is popped when it fails. */
  function VerifyImpliedSpec(t: Tables, s: State, n: string, path: seq<string>): (o: VerifyOut)
    requires ValidIn(t, s) && n in t.verifiers && s.verifyPath == path + [n]
    decreases VerifyMeasure(t, s), 4, 0, 0, 0
    ensures ValidIn(t, o.st) && o.st.fetchPath == s.fetchPath && o.st.options == s.options && Grows(s, o.st)
    ensures FailureRecorded(o.err, o.st.results)
    ensures o.err.None? ==> o.st.verifyPath == s.verifyPath && forall d :: d in t.verifiers[n].implies ==> d in o.st.results
    ensures o.err.Some? ==> && o.st.verifyPath == path && n !in o.st.results
                            && VerifyFailure(t.verifiers, s.verifyPath, o.st.results, t.verifiers[n].implies, o.failed, o.err.value)
    ensures (forall d :: d in t.verifiers[n].implies ==> d in s.results) ==>
              o.err.None? && o.st == s.(current := o.st.current)
  {
    var v := VerifySpec(t, s, t.verifiers[n].implies);
    if v.err.Some? then
      assert (path + [n])[|path|] == n;
      PopKeepsMemoValid(t.verifiers, path, v.st.results, v.st.evalOrder, n);
      VerifyOut(v.st.(verifyPath := path), v.err, v.failed)
    else v
  }

  /** The body of `verify` for a rule `n` that has no result and is not being verified
      (verify.js:474-486): with `n` on the verify path its implied rules are verified,
      and then, with `n` as the current rule, `n` itself is decided; the path is popped on
      every exit. (In the source the nested `verify` can leave the current rule set to a
      memoised implied rule, whose predicate then runs in place of `n`'s; the intended
      behaviour is modelled.) */
  function VerifyRuleSpec(t: Tables, s: State, n: string): (o: RuleOut)
    requires ValidIn(t, s) && n in t.verifiers && n !in s.results && n !in s.verifyPath
    decreases VerifyMeasure(t, s), 1, 0, 0, 0
    ensures ValidIn(t, o.st) && PathsKept(s, o.st) && Grows(s, o.st)
    ensures FailureRecorded(o.err, o.st.results)
    ensures o.impliedOk ==> && (forall d :: d in t.verifiers[n].implies ==> d in o.st.results)
                            && DecideEffect(t.verifiers[n].check, n, o.run, o.st.results, o.err)
    ensures !o.impliedOk ==> && n !in o.st.results && o.err.Some?
                             && VerifyFailure(t.verifiers, s.verifyPath + [n], o.st.results,
                                              t.verifiers[n].implies, o.failed, o.err.value)
    ensures (forall d :: d in t.verifiers[n].implies ==> d in s.results) ==> o.impliedOk
    ensures o.err.None? <==> n in o.st.results && Truthy(o.st.results[n])
    ensures n in o.st.results && !Truthy(o.st.results[n]) ==> o.err == Some(VerifierError(412, FailedReason(n)))
  {
    PushShrinks(t.verifiers.Keys, s.verifyPath, n);
    PushKeepsMemoValid(t.verifiers, s.verifyPath, s.results, s.evalOrder, n);
    var i := VerifyImpliedSpec(t, s.(verifyPath := s.verifyPath + [n]), n, s.verifyPath);
    if i.err.Some? then RuleOut(i.st, i.err, false, Run(map[], []), i.failed)
    else
      var entered := i.st.(current := Some(n));
      var d := DecideSpec(t, entered, n, s.verifyPath);
      DecideEffectOutcome(t.verifiers[n].check, n, d.run, d.st.results, d.err);
      GrowsTransitive(s, entered, d.st);
      RuleOut(d.st, d.err, true, d.run, 0)
  }

  /** One iteration of the loop in `verify` (verify.js:455-491) for rule `n`: the current
      rule becomes `n`; an unknown rule is an error (and the current rule then none),
      a memoised one is skipped, one on the verify path is a cycle, and any other is
      entered, after which the current rule is restored. */
  function VerifyOneSpec(t: Tables, s: State, n: string): (o: RuleOut)
    requires ValidIn(t, s)
    decreases VerifyMeasure(t, s), 2, 0, 0, 0
    ensures ValidIn(t, o.st) && PathsKept(s, o.st) && Grows(s, o.st)
    ensures o.err.None? ==> n in t.verifiers && n in o.st.results
    ensures o.err.Some? ==> RuleFailure(t.verifiers, s.verifyPath, o.st.results, n, o.err.value)
    ensures FailureRecorded(o.err, o.st.results)
    ensures n in s.results ==> o.err.None? && o.st == s.(current := Some(n))
    ensures n !in t.verifiers ==> o.err == Some(Thrown(UnknownRuleMessage(n))) && o.st == s.(current := None)
    ensures n in t.verifiers && EntryCheck(s.results, s.verifyPath, n) == CycleFound ==>
              o.err == Some(Thrown(VerifyCycleMessage(s.verifyPath, n))) && o.st == s.(current := Some(n))
    ensures n in t.verifiers && EntryCheck(s.results, s.verifyPath, n) == Enter ==>
              && o.st.current == s.current
              && (o.impliedOk ==> DecideEffect(t.verifiers[n].check, n, o.run, o.st.results, o.err))
              && (!o.impliedOk ==> && n !in o.st.results && o.err.Some?
                                   && VerifyFailure(t.verifiers, s.verifyPath + [n], o.st.results,
                                                    t.verifiers[n].implies, o.failed, o.err.value))
              && ((forall d :: d in t.verifiers[n].implies ==> d in s.results) ==> o.impliedOk)
  {
    if n !in t.verifiers then RuleOut(s.(current := None), Some(Thrown(UnknownRuleMessage(n))), false, Run(map[], []), 0)
    else
      var entered := s.(current := Some(n));
      match EntryCheck(s.results, s.verifyPath, n)
      case Skip => RuleOut(entered, None, false, Run(map[], []), 0)
      case CycleFound => RuleOut(entered, Some(Thrown(VerifyCycleMessage(s.verifyPath, n))), false, Run(map[], []), 0)
      case Enter =>
        var r := VerifyRuleSpec(t, entered, n);
        RuleOut(r.st.(current := s.current), r.err, r.impliedOk, r.run, r.failed)
  }

  /** `verify(names)`, verify.js:444-493: each name in turn, stopping at the first
      failure. (The source throws `new Verify.Error`, which names no defined type, and
      builds the failure message after the current rule was restored; the intended
      behaviour is modelled.) */
  function VerifySpec(t: Tables, s: State, names: seq<string>): (o: VerifyOut)
    requires ValidIn(t, s)
    decreases VerifyMeasure(t, s), 3, 0, 0, |names|
    ensures ValidIn(t, o.st) && PathsKept(s, o.st) && Grows(s, o.st)
    ensures o.err.None? ==> o.failed == |names| && forall n :: n in names ==> n in t.verifiers && n in o.st.results
    ensures o.err.Some? ==> VerifyFailure(t.verifiers, s.verifyPath, o.st.results, names, o.failed, o.err.value)
    ensures FailureRecorded(o.err, o.st.results)
    ensures (forall n :: n in names ==> n in s.results) ==> o.err.None? && o.st == s.(current := o.st.current)
  {
    if names == [] then VerifyOut(s, None, 0)
    else
      var one := VerifyOneSpec(t, s, names[0]);
      if one.err.Some? then VerifyOut(one.st, one.err, 0)
      else
        var rest := VerifySpec(t, one.st, names[1..]);
        VerifyConsPost(t, s, names, one.st, rest);
        VerifyOut(rest.st, rest.err, rest.failed + 1)
  }

  /** What `VerifySpec` states of a list, from what `VerifyOneSpec` states of its first
      name (verified) and `VerifySpec` of the rest. */
  lemma VerifyConsPost(t: Tables, s: State, names: seq<string>, s1: State, rest: VerifyOut)
    requires names != [] && ValidIn(t, s)
    requires ValidIn(t, s1) && PathsKept(s, s1) && Grows(s, s1)
    requires names[0] in t.verifiers && names[0] in s1.results
    requires names[0] in s.results ==> s1 == s.(current := Some(names[0]))
    requires ValidIn(t, rest.st) && PathsKept(s1, rest.st) && Grows(s1, rest.st)
    requires rest.err.None? ==> rest.failed == |names| - 1 && forall n :: n in names[1..] ==> n in t.verifiers && n in rest.st.results
    requires rest.err.Some? ==> VerifyFailure(t.verifiers, s1.verifyPath, rest.st.results, names[1..], rest.failed, rest.err.value)
    requires FailureRecorded(rest.err, rest.st.results)
    requires (forall n :: n in names[1..] ==> n in s1.results) ==> rest.err.None? && rest.st == s1.(current := rest.st.current)
    ensures PathsKept(s, rest.st) && Grows(s, rest.st)
    ensures rest.err.None? ==> rest.failed + 1 == |names| && forall n :: n in names ==> n in t.verifiers && n in rest.st.results
    ensures rest.err.Some? ==> VerifyFailure(t.verifiers, s.verifyPath, rest.st.results, names, rest.failed + 1, rest.err.value)
    ensures (forall n :: n in names ==> n in s.results) ==> rest.err.None? && rest.st == s.(current := rest.st.current)
  {
    GrowsTransitive(s, s1, rest.st);
    VerifyCons(t.verifiers, s.verifyPath, s1.results, rest.st.results, names, rest.err, rest.failed);
    VerifyConsMemoised(s, s1, rest.st, names, rest.err);
  }

  /** With every name memoised, the first step only sets the current rule, so the rest
      changes nothing but the current rule either. */
  lemma VerifyConsMemoised(s: State, s1: State, s2: State, names: seq<string>, err: Option<Error>)
    requires |names| > 0
    requires names[0] in s.results ==> s1 == s.(current := Some(names[0]))
    requires (forall n :: n in names[1..] ==> n in s1.results) ==> err.None? && s2 == s1.(current := s2.current)
    requires forall n :: n in names[1..] ==> n in names
    ensures (forall n :: n in names ==> n in s.results) ==> err.None? && s2 == s.(current := s2.current)
  {
  }

  /** The first name verified, the rest verified or failed: so have, or has, all. */
  lemma VerifyCons(vs: map<string, Rule>, path: seq<string>, r1: map<string, Value>, r2: map<string, Value>,
                   names: seq<string>, err: Option<Error>, failed: nat)
    requires |names| > 0 && names[0] in vs && names[0] in r1 && Extends(r1, r2)
    requires err.None? ==> forall n :: n in names[1..] ==> n in vs && n in r2
    requires err.Some? ==> VerifyFailure(vs, path, r2, names[1..], failed, err.value)
    ensures err.None? ==> forall n :: n in names ==> n in vs && n in r2
    ensures err.Some? ==> VerifyFailure(vs, path, r2, names, failed + 1, err.value)
    ensures forall n :: n in names[1..] ==> n in names
  {
    forall n | n in names[1..] ensures n in names {
      var j :| 0 <= j < |names| - 1 && names[1..][j] == n;
      assert names[j + 1] == n;
    }
    if err.Some? {
      forall j | 0 <= j < failed + 1 ensures names[j] in vs && names[j] in r2 {
        if j > 0 { assert names[j] == names[1..][j - 1]; }
      }
      assert names[failed + 1] == names[1..][failed];
    } else {
      forall n | n in names ensures n in vs && n in r2 {
        if n != names[0] {
          var j :| 0 <= j < |names| && names[j] == n;
          assert names[1..][j - 1] == n;
        }
      }
    }
  }

  /** `verifies(names)`, verify.js:426-438: `verify`, with a `Verifier.Error` turned into
      `false` and every other error rethrown. */
  function VerifiesSpec(t: Tables, s: State, names: seq<string>): (o: VerifiesOut)
    requires ValidIn(t, s)
    decreases VerifyMeasure(t, s), 5, 0, 0, 0
    ensures ValidIn(t, o.st) && PathsKept(s, o.st) && Grows(s, o.st)
    ensures FailureRecorded(o.err, o.st.results)
    ensures var v := VerifySpec(t, s, names); o.st == v.st && o.cause == v.err && o.failed == v.failed
    ensures o.ok <==> o.cause.None?
    ensures o.cause.None? ==> o.err.None? && forall n :: n in names ==> n in t.verifiers && n in o.st.results
    ensures o.cause.Some? ==> && VerifyFailure(t.verifiers, s.verifyPath, o.st.results, names, o.failed, o.cause.value)
                              && o.err == if Recoverable(o.cause.value) then None else o.cause
    ensures (forall n :: n in names ==> n in s.results) ==> o.ok && o.st == s.(current := o.st.current)
  {
    var v := VerifySpec(t, s, names);
    VerifiesOut(v.st, v.err.None?, if v.err.Some? && Recoverable(v.err.value) then None else v.err, v.err, v.failed)
  }

  /** A rule whose implied rules are decided and whose predicate first calls `get`: when
      that `get` fails with an error `verifies` does not recover from (a cyclic fetch or a
      failed fetcher), `verifies([n])` rethrows exactly that error (verify.js:426-438). */
  lemma NestedErrorRethrown(t: Tables, s: State, n: string, k: string, dontThrow: Option<bool>)
    requires ValidIn(t, s) && n in t.verifiers && n !in s.results && n !in s.verifyPath
    requires forall d :: d in t.verifiers[n].implies ==> d in s.results
    requires |t.verifiers[n].check.steps| > 0 && t.verifiers[n].check.steps[0] == Get(k, dontThrow)
    requires var g := GetSpec(t, s.(verifyPath := s.verifyPath + [n], current := Some(n)), k, dontThrow);
             g.err.Some? && !Recoverable(g.err.value)
    ensures var g := GetSpec(t, s.(verifyPath := s.verifyPath + [n], current := Some(n)), k, dontThrow);
            var o := VerifiesSpec(t, s, [n]);
            !o.ok && o.err == g.err
  {
    var x := s.(verifyPath := s.verifyPath + [n], current := Some(n));
    var g := GetSpec(t, x, k, dontThrow);
    PushKeepsMemoValid(t.verifiers, s.verifyPath, s.results, s.evalOrder, n);
    var entered := s.(current := Some(n));
    var pushed := entered.(verifyPath := s.verifyPath + [n]);
    var i := VerifyImpliedSpec(t, pushed, n, s.verifyPath);
    assert i.err.None? && i.st.(current := Some(n)) == x;
    var steps := t.verifiers[n].check.steps;
    var c := CallsSpec(t, x, steps);
    assert CallSpec(t, x, steps[0]).err == g.err;
    assert c.err == g.err;
    var d := DecideSpec(t, x, n, s.verifyPath);
    assert d.err == g.err;
    assert VerifyRuleSpec(t, entered, n).err == g.err;
    assert VerifyOneSpec(t, s, n).err == g.err;
    assert VerifySpec(t, s, [n]).err == g.err;
  }

  /** The data entries of the shorthand `verify`, set in order (verify.js:28-30). */
  function SetAllSpec(t: Tables, s: State, entries: seq<(string, Value)>): (r: State)
    decreases |entries|
    ensures PathsKept(s, r) && MemoKept(s, r) && s.data.Keys <= r.data.Keys
  {
    if entries == [] then s
    else SetAllSpec(t, SetSpec(t, s, entries[0].0, entries[0].1), entries[1..])
  }

  /** Every entry whose value is not absent leaves its key set. */
  lemma {:induction false} SetAllKeys(t: Tables, s: State, entries: seq<(string, Value)>)
    decreases |entries|
    ensures forall i :: 0 <= i < |entries| && !Absent(entries[i].1) ==> entries[i].0 in SetAllSpec(t, s, entries).data
  {
    if entries != [] {
      var s1 := SetSpec(t, s, entries[0].0, entries[0].1);
      SetAllKeys(t, s1, entries[1..]);
      forall i | 0 <= i < |entries| && !Absent(entries[i].1)
        ensures entries[i].0 in SetAllSpec(t, s, entries).data
      {
        if i > 0 { assert entries[i] == entries[1..][i - 1]; }
      }
    }
  }

  /** The value a key ends with is that of the last entry for it that is not absent, or,
      without one, the value it had. */
  lemma {:induction false} SetAllAt(t: Tables, s: State, entries: seq<(string, Value)>, k: string)
    decreases |entries|
    ensures forall i :: (&& 0 <= i < |entries| && entries[i].0 == k && !Absent(entries[i].1)
                         && (forall j :: i < j < |entries| && entries[j].0 == k ==> Absent(entries[j].1)))
                        ==> Lookup(SetAllSpec(t, s, entries).data, k) == entries[i].1
    ensures (forall i :: 0 <= i < |entries| && entries[i].0 == k ==> Absent(entries[i].1)) ==>
              Lookup(SetAllSpec(t, s, entries).data, k) == Lookup(s.data, k)
  {
    if entries != [] {
      var s1 := SetSpec(t, s, entries[0].0, entries[0].1);
      var rest := entries[1..];
      SetAllAt(t, s1, rest, k);
      assert SetAllSpec(t, s, entries) == SetAllSpec(t, s1, rest);
      assert forall j :: 0 < j < |entries| ==> entries[j] == rest[j - 1];
      if entries[0].0 != k || Absent(entries[0].1) {
        assert Lookup(s1.data, k) == Lookup(s.data, k);
      }
    }
  }

  /** The shorthand `verify(data, toVerify, options)` of verify.js:25-37: a fresh context,
      every data entry set in order, the rules verified, and the context cleaned afterwards
      when `reset` holds or is left out (the source's default is `true`). */
  function VerifyDataSpec(t: Tables, data: seq<(string, Value)>, toVerify: seq<string>,
                          optimizeFields: Option<bool>, reset: Option<bool>): (o: VerifyOut)
    ensures ValidIn(t, o.st) && o.st.fetchPath == [] && o.st.verifyPath == []
    ensures o.err.None? && reset.GetOr(true) ==>
              o.st.data == map[] && o.st.fetched == map[] && o.st.fields == map[] && o.st.results == map[]
    ensures o.err.None? && !reset.GetOr(true) ==> forall n :: n in toVerify ==> n in t.verifiers && n in o.st.results
    ensures o.err.Some? ==> VerifyFailure(t.verifiers, [], o.st.results, toVerify, o.failed, o.err.value)
    ensures o.err.Some? || !reset.GetOr(true) ==>
              forall i :: 0 <= i < |data| && !Absent(data[i].1) ==> data[i].0 in o.st.data
  {
    var s := SetAllSpec(t, Fresh(optimizeFields), data);
    SetAllKeys(t, Fresh(optimizeFields), data);
    var v := VerifySpec(t, s, toVerify);
    if v.err.None? && reset.GetOr(true) then VerifyOut(Cleaned(v.st, None), v.err, v.failed) else v
  }

  /** The nested calls of a fetcher, of a predicate and of `verify`, one at a time: after
      `i` calls that returned `values` and left state `s`, the whole sequence gives those
      values followed by what the rest gives when started in `s`. `GetsNext`, `CallsNext`
      and `VerifyNext` take one more step: the next call starts in the state the previous
      one left, and when it fails the sequence ends there, in the state it left and with
      its error unchanged. */
  ghost predicate GetsAfter(t: Tables, s0: State, keys: seq<string>, i: nat, s: State, values: seq<Value>)
    requires i <= |keys|
  {
    var c := GetsSpec(t, s, keys[i..]);
    GetsSpec(t, s0, keys) == CallsOut(c.st, values + c.values, c.err)
  }

  lemma GetsNext(t: Tables, s0: State, keys: seq<string>, i: nat, s: State, values: seq<Value>)
    requires i < |keys| && GetsAfter(t, s0, keys, i, s, values)
    ensures var g := GetSpec(t, s, keys[i], None);
            && (g.err.Some? ==> GetsSpec(t, s0, keys) == CallsOut(g.st, values, g.err))
            && (g.err.None? ==> GetsAfter(t, s0, keys, i + 1, g.st, values + [g.r]))
  {
    assert keys[i..][0] == keys[i] && keys[i..][1..] == keys[i + 1..];
    var g := GetSpec(t, s, keys[i], None);
    if g.err.None? {
      var c := GetsSpec(t, g.st, keys[i + 1..]);
      assert values + ([g.r] + c.values) == (values + [g.r]) + c.values;
    } else {
      assert values + [] == values;
    }
  }

  lemma GetsStart(t: Tables, s0: State, keys: seq<string>)
    ensures GetsAfter(t, s0, keys, 0, s0, [])
  {
    assert keys[0..] == keys && [] + GetsSpec(t, s0, keys).values == GetsSpec(t, s0, keys).values;
  }

  lemma GetsDone(t: Tables, s0: State, keys: seq<string>, s: State, values: seq<Value>)
    requires GetsAfter(t, s0, keys, |keys|, s, values)
    ensures GetsSpec(t, s0, keys) == CallsOut(s, values, None)
  {
    assert keys[|keys|..] == [] && values + [] == values;
  }

  ghost predicate CallsAfter(t: Tables, s0: State, steps: seq<Step>, i: nat, s: State, values: seq<Value>)
    requires i <= |steps| && ValidIn(t, s0) && ValidIn(t, s)
  {
    var c := CallsSpec(t, s, steps[i..]);
    CallsSpec(t, s0, steps) == CallsOut(c.st, values + c.values, c.err)
  }

  lemma CallsNext(t: Tables, s0: State, steps: seq<Step>, i: nat, s: State, values: seq<Value>)
    requires i < |steps| && ValidIn(t, s0) && ValidIn(t, s) && CallsAfter(t, s0, steps, i, s, values)
    ensures var c := CallSpec(t, s, steps[i]);
            && (c.err.Some? ==> CallsSpec(t, s0, steps) == CallsOut(c.st, values, c.err))
            && (c.err.None? ==> CallsAfter(t, s0, steps, i + 1, c.st, values + [c.r]))
  {
    assert steps[i..][0] == steps[i] && steps[i..][1..] == steps[i + 1..];
    var c := CallSpec(t, s, steps[i]);
    if c.err.None? {
      var rest := CallsSpec(t, c.st, steps[i + 1..]);
      assert values + ([c.r] + rest.values) == (values + [c.r]) + rest.values;
    } else {
      assert values + [] == values;
    }
  }

  lemma CallsStart(t: Tables, s0: State, steps: seq<Step>)
    requires ValidIn(t, s0)
    ensures CallsAfter(t, s0, steps, 0, s0, [])
  {
    assert steps[0..] == steps && [] + CallsSpec(t, s0, steps).values == CallsSpec(t, s0, steps).values;
  }

  lemma CallsDone(t: Tables, s0: State, steps: seq<Step>, s: State, values: seq<Value>)
    requires ValidIn(t, s0) && ValidIn(t, s) && CallsAfter(t, s0, steps, |steps|, s, values)
    ensures CallsSpec(t, s0, steps) == CallsOut(s, values, None)
  {
    assert steps[|steps|..] == [] && values + [] == values;
  }

  ghost predicate VerifyAfter(t: Tables, s0: State, names: seq<string>, i: nat, s: State)
    requires i <= |names| && ValidIn(t, s0) && ValidIn(t, s)
  {
    var v := VerifySpec(t, s, names[i..]);
    VerifySpec(t, s0, names) == VerifyOut(v.st, v.err, v.failed + i)
  }

  lemma VerifyNext(t: Tables, s0: State, names: seq<string>, i: nat, s: State)
    requires i < |names| && ValidIn(t, s0) && ValidIn(t, s) && VerifyAfter(t, s0, names, i, s)
    ensures var one := VerifyOneSpec(t, s, names[i]);
            && (one.err.Some? ==> VerifySpec(t, s0, names) == VerifyOut(one.st, one.err, i))
            && (one.err.None? ==> VerifyAfter(t, s0, names, i + 1, one.st))
  {
    var rest := names[i..];
    assert rest[0] == names[i] && rest[1..] == names[i + 1..];
    VerifyCases(t, s, rest);
  }

  /** `VerifySpec` on a non-empty list: the first name, then the rest. */
  lemma VerifyCases(t: Tables, s: State, names: seq<string>)
    requires ValidIn(t, s) && names != []
    ensures var one := VerifyOneSpec(t, s, names[0]);
            && (one.err.Some? ==> VerifySpec(t, s, names) == VerifyOut(one.st, one.err, 0))
            && (one.err.None? ==> var v := VerifySpec(t, one.st, names[1..]);
                                  VerifySpec(t, s, names) == VerifyOut(v.st, v.err, v.failed + 1))
  {
  }

  lemma VerifyStart(t: Tables, s0: State, names: seq<string>)
    requires ValidIn(t, s0)
    ensures VerifyAfter(t, s0, names, 0, s0)
  {
    assert names[0..] == names;
  }

  lemma VerifyDone(t: Tables, s0: State, names: seq<string>, s: State)
    requires ValidIn(t, s0) && ValidIn(t, s) && VerifyAfter(t, s0, names, |names|, s)
    ensures VerifySpec(t, s0, names) == VerifyOut(s, None, |names|)
  {
    assert names[|names|..] == [];
  }

  lemma EmptyValid(t: Tables, s: State)
    requires s.verifyPath == [] && s.results == map[] && s.evalOrder == [] && s.seen == map[]
    ensures ValidIn(t, s)
  {
  }
}

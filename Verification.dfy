/** The verification context of verify.js (`Verifier.prototype`, verify.js:170-493) as a
    class over its fields. Every method is proved to end in exactly the state, and with
    exactly the results, that the function of the same name in `Semantics` gives for the
    state it started in; the properties of those functions are proved there. */
module Verification {
  import opened Common
  import opened Values
  import opened Rules
  import opened Semantics

  class Context {
    /** The process-wide registry this context resolves rules, fetchers and defaults in. */
    const reg: Registry
    var options: Options
    var data: map<string, Value>
    var fetched: map<string, bool>
    var fetchPath: seq<string>
    var verifyPath: seq<string>
    var results: map<string, Value>
    var fields: map<string, seq<string>>
    var current: Option<string>
    /** The rules whose predicates have returned, in the order they returned. */
    ghost var evalOrder: seq<string>
    /** For each memoised rule, what its predicate saw when it returned. */
    ghost var seen: map<string, Run>

    /** The context's state as a value. */
    ghost function Snap(): State
      reads this
    {
      State(options, data, fetched, fields, fetchPath, verifyPath, results, current, evalOrder, seen)
    }

    ghost function Tab(): Tables
      reads this, reg
    {
      Tables(reg.verifiers, reg.fetchers, reg.defaults)
    }

    /** The memo is write-once and dependency-first, and every result in it is what the
        rule's own predicate returned (see `Semantics.ValidIn`). */
    ghost predicate Valid()
      reads this, reg
    {
      ValidIn(Tab(), Snap())
    }

    /** `new Verifier(options)`: `_init` on a fresh object (verify.js:7-13, 178-194). */
    constructor (reg: Registry, optimizeFields: Option<bool>)
      ensures this.reg == reg && Valid()
      ensures options == Options(optimizeFields.GetOr(false))
      ensures data == map[] && fetched == map[] && fields == map[] && results == map[]
      ensures fetchPath == [] && verifyPath == [] && current == None && evalOrder == [] && seen == map[]
    {
      this.reg := reg;
      options := Options(optimizeFields.GetOr(false));
      data, fetched, fields, results := map[], map[], map[], map[];
      fetchPath, verifyPath := [], [];
      current := None;
      evalOrder, seen := [], map[];
      new;
      EmptyValid(Tab(), Snap());
    }

    /** `_init(options)` / `clean(options)` (verify.js:178-204): keep the options unless
        new ones are given, and drop all data, flags, paths and results. The current rule
        is not reset, as in the source. */
    method Clean(optimizeFields: Option<bool>)
      modifies this
      ensures Valid()
      ensures options == Options(optimizeFields.GetOr(old(options).optimizeFields))
      ensures data == map[] && fetched == map[] && fields == map[] && results == map[]
      ensures fetchPath == [] && verifyPath == [] && evalOrder == [] && seen == map[] && current == old(current)
    {
      options := Options(optimizeFields.GetOr(options.optimizeFields));
      data, fetched, fields, results := map[], map[], map[], map[];
      fetchPath, verifyPath := [], [];
      evalOrder, seen := [], map[];
      EmptyValid(Tab(), Snap());
    }

    /** `set(k, v)`, verify.js:338-352. */
    method Set(k: string, v: Value)
      modifies this
      ensures Snap() == SetSpec(Tab(), old(Snap()), k, v)
    {
      if !Absent(v) {
        data := data[k := v];
        if !v.Str? || k !in reg.fetchers {
          fetched := fetched[k := true];
        } else {
          fetched := fetched[k := false];
        }
        if options.optimizeFields && !v.Str? && k in reg.fetchers {
          fields := fields[k := ObjectKeys(v)];
        }
      }
    }

    /** `_setDefaultValueFor(k)`, verify.js:206-215. */
    method SetDefaultValueFor(k: string)
      modifies this
      ensures Snap() == DefaultSpec(Tab(), old(Snap()), k)
    {
      var d := DefaultFor(reg.defaults, data, k);
      if d.Some? {
        Set(k, d.value);
      }
    }

    /** `_fetch(k)`, verify.js:230-263. `run` and `cause` record what the fetcher saw and
        how it failed. */
    method Fetch(k: string) returns (r: Value, err: Option<Error>, ghost run: Run, ghost cause: Option<Error>)
      modifies this
      decreases VerifyMeasure(Tab(), Snap()), 0, FetchMeasure(Tab(), Snap()), 1
      ensures FetchOut(Snap(), r, err, run, cause) == FetchSpec(Tab(), old(Snap()), k)
    {
      run, cause := Run(map[], []), None;
      if k !in reg.fetchers || IsFetched(fetched, k) {
        if IsSet(data, k) {
          return data[k], None, run, cause;
        }
        return Undefined, None, run, cause;
      }
      if k in fetchPath {
        return Undefined, Some(Thrown(FetchCycleMessage(fetchPath, k))), run, cause;
      }
      r, err, run, cause := FetchNew(k);
    }

    /** `_fetch(k)` past its checks (verify.js:247-262). */
    method FetchNew(k: string) returns (r: Value, err: Option<Error>, ghost run: Run, ghost cause: Option<Error>)
      requires k in reg.fetchers && k !in fetchPath
      modifies this
      decreases VerifyMeasure(Tab(), Snap()), 0, FetchMeasure(Tab(), Snap()), 0
      ensures FetchOut(Snap(), r, err, run, cause) == FetchNewSpec(Tab(), old(Snap()), k)
    {
      var path := fetchPath;
      PushShrinks(reg.fetchers.Keys, path, k);
      fetchPath := path + [k];
      var e;
      r, e, run := RunFetcher(k);
      cause := e;
      fetchPath := path;
      if e.Some? {
        return Undefined, Some(MeteorError(412, FetchFailedReason(k, e.value))), run, cause;
      }
      if Truthy(r) {
        Store(k, r);
      }
      err := None;
    }

    /** verify.js:257-260: a truthy fetched value is set and the key marked fetched. */
    method Store(k: string, v: Value)
      requires Truthy(v)
      modifies this
      ensures Snap() == StoreSpec(Tab(), old(Snap()), k, v)
    {
      Set(k, v);
      fetched := fetched[k := true];
    }

    /** Calls the fetcher registered for `k` with this context as `this`. */
    method RunFetcher(k: string) returns (r: Value, err: Option<Error>, ghost run: Run)
      requires k in reg.fetchers
      modifies this
      decreases VerifyMeasure(Tab(), Snap()), 0, FetchMeasure(Tab(), Snap()), 4
      ensures RunOut(Snap(), r, err, run) == RunFetcherSpec(Tab(), old(Snap()), k)
    {
      var f := reg.fetchers[k];
      ghost var t, s0 := Tab(), Snap();
      GetsStart(t, s0, f.gets);
      var values: seq<Value> := [];
      var i := 0;
      while i < |f.gets|
        invariant 0 <= i <= |f.gets| && Tab() == t
        invariant fetchPath == s0.fetchPath && verifyPath == s0.verifyPath
        invariant GetsAfter(t, s0, f.gets, i, Snap(), values)
      {
        GetsNext(t, s0, f.gets, i, Snap(), values);
        var v, e, _, _, _ := Get(f.gets[i], None);
        if e.Some? {
          return Undefined, e, Run(data, values);
        }
        values := values + [v];
        i := i + 1;
      }
      GetsDone(t, s0, f.gets, Snap(), values);
      run := Run(data, values);
      match f.produce(data, values)
      case Produced(v) => r, err := v, None;
      case Failed(e) => r, err := Undefined, Some(UserError(e));
    }

    /** `get(k, dontThrow)`, verify.js:369-397. `got`, `run` and `cause` are the fetch's
        value and what its fetcher saw and threw. */
    method Get(k: string, dontThrow: Option<bool>)
      returns (r: Value, err: Option<Error>, ghost got: Value, ghost run: Run, ghost cause: Option<Error>)
      modifies this
      decreases VerifyMeasure(Tab(), Snap()), 0, FetchMeasure(Tab(), Snap()), 2
      ensures GetOut(Snap(), r, err, got, run, cause) == GetSpec(Tab(), old(Snap()), k, dontThrow)
    {
      got, run, cause := Undefined, Run(map[], []), None;
      var swallow := Swallows(fetchPath, verifyPath, dontThrow);
      if !IsSet(data, k) || !IsFetched(fetched, k) {
        var f, e;
        f, e, run, cause := Fetch(k);
        got := f;
        if e.Some? {
          if swallow {
            return Undefined, None, got, run, cause;
          }
          return Undefined, e, got, run, cause;
        }
        if !Truthy(f) {
          if k in reg.defaults {
            SetDefaultValueFor(k);
          } else {
            if swallow {
              return Undefined, None, got, run, cause;
            }
            return Undefined, Some(VerifierError(404, MissingDataReason(current, k))), got, run, cause;
          }
        }
      }
      return Lookup(data, k), None, got, run, cause;
    }

    /** `getId(k, dontThrow)`, verify.js:406-419. */
    method GetId(k: string, dontThrow: Option<bool>) returns (r: Value, err: Option<Error>)
      modifies this
      decreases VerifyMeasure(Tab(), Snap()), 0, FetchMeasure(Tab(), Snap()), 5
      ensures ValueOut(Snap(), r, err) == GetIdSpec(Tab(), old(Snap()), k, dontThrow)
    {
      var v: Value;
      if !IsSet(data, k) && k in reg.fetchers {
        var x, e, _, _, _ := Get(k, dontThrow);
        if e.Some? {
          return Undefined, e;
        }
        v := x;
      } else {
        v := Lookup(data, k);
      }
      match IdOf(v)
      case Ok(id) => r, err := id, None;
      case Err(e) => r, err := Undefined, Some(e);
    }

    /** One nested call a predicate makes, with this context as `this`. */
    method Call(step: Step) returns (r: Value, err: Option<Error>)
      requires Valid()
      modifies this
      decreases VerifyMeasure(Tab(), Snap()), 6, 0, 0
      ensures ValueOut(Snap(), r, err) == CallSpec(Tab(), old(Snap()), step)
    {
      match step {
        case Get(key, dontThrow) =>
          var x, y, _, _, _ := Get(key, dontThrow);
          r, err := x, y;
        case GetId(key, dontThrow) =>
          r, err := GetId(key, dontThrow);
        case Verifies(names) =>
          var ok, y, _, _ := Verifies(names);
          r, err := Bool(ok), y;
        case Verify(names) =>
          var y, _ := Verify(names);
          r, err := ContextObject, y;
      }
    }

    /** Calls rule `n`'s predicate with this context as `this`; `run` records what it saw. */
    method RunPredicate(n: string) returns (v: Value, err: Option<Error>, ghost run: Run)
      requires Valid() && n in reg.verifiers
      modifies this
      decreases VerifyMeasure(Tab(), Snap()), 8, 0, 0
      ensures RunOut(Snap(), v, err, run) == RunPredicateSpec(Tab(), old(Snap()), n)
    {
      var p := reg.verifiers[n].check;
      ghost var t, s0 := Tab(), Snap();
      CallsStart(t, s0, p.steps);
      var values: seq<Value> := [];
      var i := 0;
      while i < |p.steps|
        invariant 0 <= i <= |p.steps| && Tab() == t
        invariant ValidIn(t, Snap()) && fetchPath == s0.fetchPath && verifyPath == s0.verifyPath
        invariant CallsAfter(t, s0, p.steps, i, Snap(), values)
      {
        CallsNext(t, s0, p.steps, i, Snap(), values);
        var r, e := Call(p.steps[i]);
        if e.Some? {
          return Undefined, e, Run(data, values);
        }
        values := values + [r];
        i := i + 1;
      }
      CallsDone(t, s0, p.steps, Snap(), values);
      run := Run(data, values);
      match p.decide(data, values)
      case Returned(x) => v, err := x, None;
      case Raised(e) => v, err := Undefined, Some(UserError(e));
    }

    /** `verifies(names)`, verify.js:426-438. `cause` is what `verify` raised, and `failed`
        the position of the name it failed at. */
    method Verifies(names: seq<string>) returns (ok: bool, err: Option<Error>, ghost cause: Option<Error>, ghost failed: nat)
      requires Valid()
      modifies this
      decreases VerifyMeasure(Tab(), Snap()), 5, 0, 0
      ensures VerifiesOut(Snap(), ok, err, cause, failed) == VerifiesSpec(Tab(), old(Snap()), names)
    {
      var e;
      e, failed := Verify(names);
      cause := e;
      if e.None? {
        return true, None, cause, failed;
      }
      if Recoverable(e.value) {
        return false, None, cause, failed;
      }
      return false, e, cause, failed;
    }

    /** The body of `verify` for a rule `n` that has no result and is not being verified
        (verify.js:474-486). */
    method VerifyRule(n: string) returns (err: Option<Error>, ghost impliedOk: bool, ghost run: Run, ghost failed: nat)
      requires Valid() && n in reg.verifiers && n !in results && n !in verifyPath
      modifies this
      decreases VerifyMeasure(Tab(), Snap()), 1, 0, 0
      ensures RuleOut(Snap(), err, impliedOk, run, failed) == VerifyRuleSpec(Tab(), old(Snap()), n)
    {
      ghost var s0 := Snap();
      var path := verifyPath;
      PushShrinks(reg.verifiers.Keys, path, n);
      PushKeepsMemoValid(reg.verifiers, path, results, evalOrder, n);
      verifyPath := path + [n];
      assert Snap() == s0.(verifyPath := path + [n]);
      err, failed := VerifyImplied(n, path);
      if err.Some? {
        impliedOk, run := false, Run(map[], []);
        assert VerifyRuleSpec(Tab(), s0, n) == RuleOut(Snap(), err, impliedOk, run, failed);
        return;
      }
      impliedOk := true;
      ghost var s1 := Snap();
      current := Some(n);
      assert Snap() == s1.(current := Some(n));
      err, run := Decide(n, path);
      failed := 0;
      assert VerifyRuleSpec(Tab(), s0, n) == RuleOut(Snap(), err, impliedOk, run, failed);
    }

    /** The nested `verify` of the rules `n` implies (verify.js:476). */
    method VerifyImplied(n: string, path: seq<string>) returns (err: Option<Error>, ghost failed: nat)
      requires Valid() && n in reg.verifiers && verifyPath == path + [n]
      modifies this
      decreases VerifyMeasure(Tab(), Snap()), 4, 0, 0
      ensures VerifyOut(Snap(), err, failed) == VerifyImpliedSpec(Tab(), old(Snap()), n, path)
    {
      err, failed := Verify(reg.verifiers[n].implies);
      if err.Some? {
        ghost var s1 := Snap();
        verifyPath := path;
        assert Snap() == s1.(verifyPath := path);
      }
    }

    /** Deciding rule `n` (verify.js:479-486). */
    method Decide(n: string, path: seq<string>) returns (err: Option<Error>, ghost run: Run)
      requires Valid() && n in reg.verifiers && verifyPath == path + [n]
      requires forall d :: d in reg.verifiers[n].implies ==> d in results
      modifies this
      decreases VerifyMeasure(Tab(), Snap()), 9, 0, 0
      ensures DecideOut(Snap(), err, run) == DecideSpec(Tab(), old(Snap()), n, path)
    {
      ghost var s0 := Snap();
      var v;
      v, err, run := RunPredicate(n);
      ghost var s1 := Snap();
      verifyPath := path;
      if err.Some? {
        assert Snap() == s1.(verifyPath := path);
        assert DecideSpec(Tab(), s0, n, path) == DecideOut(Snap(), err, run);
        return;
      }
      results := results[n := v];
      seen := seen[n := run];
      evalOrder := evalOrder + [n];
      assert Snap() == s1.(verifyPath := path, results := s1.results[n := v], seen := s1.seen[n := run],
                           evalOrder := s1.evalOrder + [n]);
      if !Truthy(v) {
        err := Some(VerifierError(412, FailedReason(n)));
      }
      assert DecideSpec(Tab(), s0, n, path) == DecideOut(Snap(), err, run);
    }

    /** `verify(names)`, verify.js:444-493. `failed` is the position of the name a failure
        happened at. */
    method Verify(names: seq<string>) returns (err: Option<Error>, ghost failed: nat)
      requires Valid()
      modifies this
      decreases VerifyMeasure(Tab(), Snap()), 3, 0, 0
      ensures VerifyOut(Snap(), err, failed) == VerifySpec(Tab(), old(Snap()), names)
    {
      ghost var t, s0 := Tab(), Snap();
      VerifyStart(t, s0, names);
      var i := 0;
      while i < |names|
        invariant 0 <= i <= |names| && Tab() == t
        invariant ValidIn(t, Snap()) && fetchPath == s0.fetchPath && verifyPath == s0.verifyPath
        invariant VerifyAfter(t, s0, names, i, Snap())
      {
        VerifyNext(t, s0, names, i, Snap());
        var e, _, _, _ := VerifyOne(names[i]);
        if e.Some? {
          return e, i;
        }
        i := i + 1;
      }
      VerifyDone(t, s0, names, Snap());
      return None, |names|;
    }

    /** One iteration of the loop in `verify` (verify.js:455-491) for rule `n`. */
    method VerifyOne(n: string) returns (err: Option<Error>, ghost impliedOk: bool, ghost run: Run, ghost failed: nat)
      requires Valid()
      modifies this
      decreases VerifyMeasure(Tab(), Snap()), 2, 0, 0
      ensures RuleOut(Snap(), err, impliedOk, run, failed) == VerifyOneSpec(Tab(), old(Snap()), n)
    {
      impliedOk, run, failed := false, Run(map[], []), 0;
      var previous := current;
      if n !in reg.verifiers {
        current := None;
        return Some(Thrown(UnknownRuleMessage(n))), impliedOk, run, failed;
      }
      current := Some(n);
      var entry := EntryCheck(results, verifyPath, n);
      if entry == CycleFound {
        return Some(Thrown(VerifyCycleMessage(verifyPath, n))), impliedOk, run, failed;
      }
      err := None;
      if entry == Enter {
        err, impliedOk, run, failed := VerifyRule(n);
        current := previous;
      }
    }
  }

  /** The shorthand `verify(data, toVerify, options)` of verify.js:25-37. `failed` is the
      position of the rule a failure happened at. */
  method VerifyData(reg: Registry, data: seq<(string, Value)>, toVerify: seq<string>,
                    optimizeFields: Option<bool>, reset: Option<bool>)
    returns (c: Context, err: Option<Error>, ghost failed: nat)
    ensures fresh(c) && c.reg == reg
    ensures VerifyOut(c.Snap(), err, failed) ==
            VerifyDataSpec(Tables(reg.verifiers, reg.fetchers, reg.defaults), data, toVerify, optimizeFields, reset)
  {
    c := new Context(reg, optimizeFields);
    ghost var t := c.Tab();
    var i := 0;
    while i < |data|
      invariant 0 <= i <= |data|
      invariant c.reg == reg && c.Tab() == t
      invariant SetAllSpec(t, c.Snap(), data[i..]) == SetAllSpec(t, Fresh(optimizeFields), data)
      modifies c
    {
      assert data[i..][0] == data[i] && data[i..][1..] == data[i + 1..];
      c.Set(data[i].0, data[i].1);
      i := i + 1;
    }
    err, failed := c.Verify(toVerify);
    if err.None? && reset.GetOr(true) {
      c.Clean(None);
    }
  }
}

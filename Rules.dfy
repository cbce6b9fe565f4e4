/** The process-wide registry of verify.js: named verifiers (rules), fetchers and default
    values, and the registration functions that fill it (verify.js:75-168). */
module Rules {
  import opened Common
  import opened Values
  import GraphCheck

  /** One nested call a predicate makes on its context before deciding:
      `this.get(key, dontThrow)`, `this.getId(key, dontThrow)`, `this.verifies(names)` or
      `this.verify(names)`. */
  datatype Step =
    | Get(key: string, dontThrow: Option<bool>)
    | GetId(key: string, dontThrow: Option<bool>)
    | Verifies(names: seq<string>)
    | Verify(names: seq<string>)

  /** What user code ends with: a returned value or a thrown error of any kind, a
      `Verifier.Error` included. */
  datatype PredicateOutcome = Returned(value: Value) | Raised(error: Error)

  /** A rule's predicate as an oracle: the nested calls it makes, in order, and a total
      function from the context's data and the calls' results (a value per `get` and
      `getId`, `Bool(ok)` per `verifies`, the context per `verify`) to what it returns or
      throws. */
  datatype Predicate = Predicate(steps: seq<Step>, decide: (map<string, Value>, seq<Value>) -> PredicateOutcome)

  datatype FetchOutcome = Produced(value: Value) | Failed(error: Error)

  /** A fetcher as an oracle: the keys it reads with `this.get`, in order, and a total
      function from the context's data (where the string being expanded is stored) and
      their values to what it returns or throws. */
  datatype Fetcher = Fetcher(gets: seq<string>, produce: (map<string, Value>, seq<Value>) -> FetchOutcome)

  /** A registered default: a literal value, or a producer called on the context's data. */
  datatype DefaultValue = Literal(value: Value) | Producer(produce: map<string, Value> -> Value)

  /** A verifier definition as a caller passes it; every part may be left out. */
  datatype RuleDef = RuleDef(
    check: Option<Predicate>,
    implies: Option<seq<string>>,
    uses: Option<seq<string>>,
    impliedFor: Option<seq<string>>,
    fields: Option<map<string, seq<string>>>)

  /** A registered verifier; `check` is its predicate (the definition's `verify` function). */
  datatype Rule = Rule(
    name: string,
    check: Predicate,
    implies: seq<string>,
    uses: seq<string>,
    impliedFor: seq<string>,
    fields: map<string, seq<string>>)

  /** The default predicate: `function(){return true;}`. */
  function AlwaysTrue(): Predicate {
    Predicate([], (data: map<string, Value>, results: seq<Value>) => Returned(Bool(true)))
  }

  /** verify.js:125-127: fill in the defaults, name the rule, and make `uses` the
      duplicate-free union of the declared `uses` and `implies`, in that order. */
  function Normalize(name: string, def: RuleDef): (r: Rule)
    ensures WellFormed(name, r)
    ensures r.implies == def.implies.GetOr([]) && r.impliedFor == def.impliedFor.GetOr([])
    ensures forall x :: x in r.uses <==> x in def.uses.GetOr([]) || x in def.implies.GetOr([])
    ensures def.check.Some? ==> r.check == def.check.value
  {
    var implies := def.implies.GetOr([]);
    Rule(name, def.check.GetOr(AlwaysTrue()), implies, Dedupe(def.uses.GetOr([]) + implies),
         def.impliedFor.GetOr([]), def.fields.GetOr(map[]))
  }

  /** The invariant every registered rule keeps: it is stored under its own name and its
      `uses` is duplicate free and contains every rule it implies. */
  ghost predicate WellFormed(name: string, r: Rule) {
    r.name == name && NoDup(r.uses) && forall x :: x in r.implies ==> x in r.uses
  }

  /** verify.js:134-135: `x` pushed onto the rule's `implies` and `uses`. */
  function AddEdge(r: Rule, x: string): Rule {
    r.(implies := r.implies + [x], uses := r.uses + [x])
  }

  /** One iteration of verify.js:131-138 for target `t`: only a registered target that
      does not yet use `x` gains the edge. */
  function BackEdge(vs: map<string, Rule>, x: string, t: string): map<string, Rule> {
    if t in vs && x !in vs[t].uses then vs[t := AddEdge(vs[t], x)] else vs
  }

  /** The whole loop of verify.js:131-138 over the `impliedFor` targets, in order. */
  function ApplyBackEdges(vs: map<string, Rule>, x: string, targets: seq<string>): map<string, Rule>
    decreases |targets|
  {
    if targets == [] then vs else ApplyBackEdges(BackEdge(vs, x, targets[0]), x, targets[1..])
  }

  /** The verifier table after `registerVerifier(name, def)` (verify.js:124-148). */
  function Registered(vs: map<string, Rule>, name: string, def: RuleDef): map<string, Rule> {
    var r := Normalize(name, def);
    ApplyBackEdges(vs[name := r], name, r.impliedFor)
  }

  /** The verifier table after `registerVerifiers(defs)`, registering in the given order. */
  function RegisteredAll(vs: map<string, Rule>, defs: seq<(string, RuleDef)>): map<string, Rule>
    decreases |defs|
  {
    if defs == [] then vs else RegisteredAll(Registered(vs, defs[0].0, defs[0].1), defs[1..])
  }

  /** The registry's key order after `registerVerifiers(defs)`: each name is appended
      when it is registered for the first time, so the names keep the order in which they
      were first registered. */
  function OrderAll(vs: map<string, Rule>, order: seq<string>, defs: seq<(string, RuleDef)>): (r: seq<string>)
    decreases |defs|
    ensures order <= r
    ensures NoDup(order) && (forall x :: x in order <==> x in vs) ==>
              NoDup(r) && forall x :: x in r <==> x in RegisteredAll(vs, defs)
  {
    if defs == [] then order
    else
      var n := defs[0].0;
      var order' := if n in vs then order else order + [n];
      RegisteredAt(vs, n, defs[0].1, n);
      assert NoDup(order) && (forall x :: x in order <==> x in vs) ==>
               NoDup(order') && forall x :: x in order' <==> x in Registered(vs, n, defs[0].1);
      OrderAll(Registered(vs, n, defs[0].1), order', defs[1..])
  }

  /** Batched `registerFetchers` / `setDefaultValues`: one assignment per entry, in order. */
  function Bind<V>(m: map<string, V>, entries: seq<(string, V)>): map<string, V>
    decreases |entries|
  {
    if entries == [] then m else Bind(m[entries[0].0 := entries[0].1], entries[1..])
  }

  /** The effect of the back-edge loop on each entry of the table: the keys stay the same
      (an unregistered target is skipped), and a target gains the edge exactly when it is
      listed and does not already use `x`, however often it is listed. */
  lemma {:induction false} ApplyBackEdgesAt(vs: map<string, Rule>, x: string, targets: seq<string>, k: string)
    ensures ApplyBackEdges(vs, x, targets).Keys == vs.Keys
    ensures k in vs ==> (ApplyBackEdges(vs, x, targets)[k] ==
                         if k in targets && x !in vs[k].uses then AddEdge(vs[k], x) else vs[k])
  {
    if targets != [] {
      var vs1 := BackEdge(vs, x, targets[0]);
      ApplyBackEdgesAt(vs1, x, targets[1..], k);
      assert forall y :: y in targets <==> y == targets[0] || y in targets[1..];
    }
  }

  /** What `registerVerifier(name, def)` does to the table: `name` is stored normalised
      (plus the edge to itself when it lists itself in `impliedFor`), every other
      registered target listed in `impliedFor` gains `name` in `implies` and `uses` unless
      it already uses it, and nothing else changes. */
  lemma RegisteredAt(vs: map<string, Rule>, name: string, def: RuleDef, k: string)
    ensures Registered(vs, name, def).Keys == vs.Keys + {name}
    ensures var r := Normalize(name, def);
            Registered(vs, name, def)[name] ==
              if name in r.impliedFor && name !in r.uses then AddEdge(r, name) else r
    ensures k in vs && k != name ==> (Registered(vs, name, def)[k] ==
              if k in def.impliedFor.GetOr([]) && name !in vs[k].uses then AddEdge(vs[k], name) else vs[k])
  {
    var r := Normalize(name, def);
    ApplyBackEdgesAt(vs[name := r], name, r.impliedFor, k);
    ApplyBackEdgesAt(vs[name := r], name, r.impliedFor, name);
  }

  /** After registration every listed, already registered target implies and uses `name`. */
  lemma RegisteredTargetsImply(vs: map<string, Rule>, name: string, def: RuleDef, t: string)
    requires t in def.impliedFor.GetOr([]) && t in vs && t != name
    ensures t in Registered(vs, name, def)
    ensures name in Registered(vs, name, def)[t].uses
    ensures name !in vs[t].uses ==> name in Registered(vs, name, def)[t].implies
  {
    RegisteredAt(vs, name, def, t);
  }

  lemma AddEdgeWellFormed(name: string, r: Rule, x: string)
    requires WellFormed(name, r) && x !in r.uses
    ensures WellFormed(name, AddEdge(r, x))
  {
  }

  /** Registration keeps every rule well formed: `uses` covers `implies`, without duplicates. */
  lemma RegisteredWellFormed(vs: map<string, Rule>, name: string, def: RuleDef)
    requires forall k :: k in vs ==> WellFormed(k, vs[k])
    ensures forall k :: k in Registered(vs, name, def) ==> WellFormed(k, Registered(vs, name, def)[k])
  {
    var r := Normalize(name, def);
    forall k | k in Registered(vs, name, def) ensures WellFormed(k, Registered(vs, name, def)[k]) {
      RegisteredAt(vs, name, def, k);
      if k == name {
        if name in r.impliedFor && name !in r.uses { AddEdgeWellFormed(name, r, name); }
      } else if k in def.impliedFor.GetOr([]) && name !in vs[k].uses {
        AddEdgeWellFormed(k, vs[k], name);
      }
    }
  }

  /** Registering the same definition twice has the effect of registering it once. */
  lemma RegisterIdempotent(vs: map<string, Rule>, name: string, def: RuleDef)
    ensures Registered(Registered(vs, name, def), name, def) == Registered(vs, name, def)
  {
    var once := Registered(vs, name, def);
    var twice := Registered(once, name, def);
    RegisteredAt(vs, name, def, name);
    RegisteredAt(once, name, def, name);
    forall k | k in once ensures k in twice && twice[k] == once[k] {
      RegisteredAt(vs, name, def, k);
      RegisteredAt(once, name, def, k);
    }
    assert twice.Keys == once.Keys;
  }

  /** Batched registration keeps every rule well formed. */
  lemma {:induction false} RegisteredAllWellFormed(vs: map<string, Rule>, defs: seq<(string, RuleDef)>)
    requires forall k :: k in vs ==> WellFormed(k, vs[k])
    ensures forall k :: k in RegisteredAll(vs, defs) ==> WellFormed(k, RegisteredAll(vs, defs)[k])
    decreases |defs|
  {
    if defs != [] {
      RegisteredWellFormed(vs, defs[0].0, defs[0].1);
      RegisteredAllWellFormed(Registered(vs, defs[0].0, defs[0].1), defs[1..]);
    }
  }

  /** A batch binds exactly the listed keys, each to the value of its last entry, and
      leaves every other key as it was. */
  lemma {:induction false} BindAt<V>(m: map<string, V>, entries: seq<(string, V)>, k: string)
    ensures k in Bind(m, entries) <==> k in m || exists i :: 0 <= i < |entries| && entries[i].0 == k
    ensures (forall i :: 0 <= i < |entries| ==> entries[i].0 != k) && k in m ==> Bind(m, entries)[k] == m[k]
    ensures forall j :: 0 <= j < |entries| && entries[j].0 == k && (forall i :: j < i < |entries| ==> entries[i].0 != k)
                        ==> k in Bind(m, entries) && Bind(m, entries)[k] == entries[j].1
    decreases |entries|
  {
    if entries != [] {
      var m1 := m[entries[0].0 := entries[0].1];
      var rest := entries[1..];
      BindAt(m1, rest, k);
      assert Bind(m, entries) == Bind(m1, rest);
      assert forall i :: 1 <= i < |entries| ==> entries[i] == rest[i - 1];
      if exists i :: 0 <= i < |entries| && entries[i].0 == k {
        var i :| 0 <= i < |entries| && entries[i].0 == k;
        if i > 0 { assert rest[i - 1].0 == k; }
      }
      forall j | 0 <= j < |entries| && entries[j].0 == k && (forall i :: j < i < |entries| ==> entries[i].0 != k)
        ensures k in Bind(m, entries) && Bind(m, entries)[k] == entries[j].1
      {
        if j == 0 {
          assert forall i :: 0 <= i < |rest| ==> rest[i].0 != k by {
            forall i | 0 <= i < |rest| ensures rest[i].0 != k { assert entries[i + 1] == rest[i]; }
          }
        } else {
          assert rest[j - 1] == entries[j];
          assert forall i :: j - 1 < i < |rest| ==> rest[i].0 != k by {
            forall i | j - 1 < i < |rest| ensures rest[i].0 != k { assert entries[i + 1] == rest[i]; }
          }
        }
      }
    }
  }

  /** The uses graph that the startup check walks. */
  function UsesGraph(vs: map<string, Rule>): (g: GraphCheck.Graph)
    ensures g.Keys == vs.Keys
    ensures forall n :: n in g ==> g[n] == vs[n].uses
  {
    map n | n in vs :: vs[n].uses
  }

  /** `Verifier._verifiers`, `_fetchers`, `_defaults` and `_sortedVerifiers`, as one object.
      `order` is the key order of `_verifiers`, the order the startup check walks it in. */
  class Registry {
    var verifiers: map<string, Rule>
    var order: seq<string>
    var fetchers: map<string, Fetcher>
    var defaults: map<string, DefaultValue>
    var sorted: seq<string>

    ghost predicate Valid()
      reads this
    {
      && NoDup(order)
      && (forall n :: n in order <==> n in verifiers)
      && (forall n :: n in verifiers ==> WellFormed(n, verifiers[n]))
    }

    /** verify.js:75-78: all tables empty. */
    constructor ()
      ensures Valid()
      ensures verifiers == map[] && order == [] && fetchers == map[] && defaults == map[] && sorted == []
    {
      verifiers, order, fetchers, defaults, sorted := map[], [], map[], map[], [];
    }

    /** `Verifier.registerVerifier(name, verifier)`, verify.js:124-148. */
    method RegisterVerifier(name: string, def: RuleDef)
      requires Valid()
      modifies this
      ensures Valid()
      ensures verifiers == Registered(old(verifiers), name, def)
      ensures order == if name in old(verifiers) then old(order) else old(order) + [name]
      ensures fetchers == old(fetchers) && defaults == old(defaults) && sorted == old(sorted)
    {
      RegisteredWellFormed(verifiers, name, def);
      var r := Normalize(name, def);
      if name !in verifiers {
        order := order + [name];
      }
      verifiers := verifiers[name := r];
      var targets := r.impliedFor;
      var i := 0;
      while i < |targets|
        invariant 0 <= i <= |targets|
        invariant ApplyBackEdges(verifiers, name, targets[i..]) == Registered(old(verifiers), name, def)
        invariant order == if name in old(verifiers) then old(order) else old(order) + [name]
        invariant fetchers == old(fetchers) && defaults == old(defaults) && sorted == old(sorted)
      {
        var t := targets[i];
        assert targets[i..][0] == t && targets[i..][1..] == targets[i + 1..];
        if t in verifiers {
          if name !in verifiers[t].uses {
            var target := verifiers[t];
            verifiers := verifiers[t := target.(implies := target.implies + [name], uses := target.uses + [name])];
          }
        }
        i := i + 1;
      }
      RegisteredAt(old(verifiers), name, def, name);
    }

    /** `Verifier.registerVerifiers(verifiers)`, verify.js:110-116. */
    method RegisterVerifiers(defs: seq<(string, RuleDef)>)
      requires Valid()
      modifies this
      ensures Valid()
      ensures verifiers == RegisteredAll(old(verifiers), defs)
      ensures order == OrderAll(old(verifiers), old(order), defs)
      ensures fetchers == old(fetchers) && defaults == old(defaults) && sorted == old(sorted)
    {
      var i := 0;
      while i < |defs|
        invariant 0 <= i <= |defs| && Valid()
        invariant RegisteredAll(verifiers, defs[i..]) == RegisteredAll(old(verifiers), defs)
        invariant OrderAll(verifiers, order, defs[i..]) == OrderAll(old(verifiers), old(order), defs)
        invariant fetchers == old(fetchers) && defaults == old(defaults) && sorted == old(sorted)
      {
        assert defs[i..][0] == defs[i] && defs[i..][1..] == defs[i + 1..];
        RegisterVerifier(defs[i].0, defs[i].1);
        i := i + 1;
      }
    }

    /** `Verifier.registerFetcher(name, fn)`, verify.js:166-168. */
    method RegisterFetcher(name: string, f: Fetcher)
      modifies this`fetchers
      ensures fetchers == old(fetchers)[name := f]
    {
      fetchers := fetchers[name := f];
    }

    /** `Verifier.registerFetchers(fetchers)`, verify.js:154-159. */
    method RegisterFetchers(entries: seq<(string, Fetcher)>)
      modifies this`fetchers
      ensures fetchers == Bind(old(fetchers), entries)
    {
      var i := 0;
      while i < |entries|
        invariant 0 <= i <= |entries|
        invariant Bind(fetchers, entries[i..]) == Bind(old(fetchers), entries)
      {
        assert entries[i..][0] == entries[i] && entries[i..][1..] == entries[i + 1..];
        RegisterFetcher(entries[i].0, entries[i].1);
        i := i + 1;
      }
    }

    /** `Verifier.setDefaultValue(name, value)`, verify.js:101-103. */
    method SetDefaultValue(name: string, d: DefaultValue)
      modifies this`defaults
      ensures defaults == old(defaults)[name := d]
    {
      defaults := defaults[name := d];
    }

    /** `Verifier.setDefaultValues(values)`, verify.js:90-95. */
    method SetDefaultValues(entries: seq<(string, DefaultValue)>)
      modifies this`defaults
      ensures defaults == Bind(old(defaults), entries)
    {
      var i := 0;
      while i < |entries|
        invariant 0 <= i <= |entries|
        invariant Bind(defaults, entries[i..]) == Bind(old(defaults), entries)
      {
        assert entries[i..][0] == entries[i] && entries[i..][1..] == entries[i + 1..];
        SetDefaultValue(entries[i].0, entries[i].1);
        i := i + 1;
      }
    }

    /** The startup check of checkForLoops.js:8-37 over the registered verifiers, filling
        `sorted`; `out` is how the walk ended, and `err` the error the source then throws.
        When the walk stops early, the partial `sorted` it leaves is still duplicate-free,
        topological and made of registered rules. */
    method CheckForLoops() returns (err: Option<Error>, out: GraphCheck.Outcome)
      requires Valid()
      modifies this`sorted
      ensures err == GraphCheck.OutcomeError(out)
      ensures GraphCheck.Topological(UsesGraph(verifiers), sorted) && NoDup(sorted) && Elems(sorted) <= verifiers.Keys
      ensures out.Done? ==> GraphCheck.Topological(UsesGraph(verifiers), sorted) && NoDup(sorted)
                            && Elems(sorted) == verifiers.Keys
      ensures out.Cycle? ==> && |out.path| > 0 && GraphCheck.IsPath(UsesGraph(verifiers), out.path)
                             && out.path[|out.path| - 1] == out.requiredBy
                             && GraphCheck.Edge(UsesGraph(verifiers), out.requiredBy, out.dep) && out.dep in out.path
      ensures out.Dangling? ==> out.requiredBy in verifiers && out.dep in verifiers[out.requiredBy].uses
                                && out.dep !in verifiers
      ensures err.None? <==> !GraphCheck.Cyclic(UsesGraph(verifiers)) && GraphCheck.Closed(UsesGraph(verifiers))
    {
      var s;
      s, out := GraphCheck.CheckForLoops(UsesGraph(verifiers), order);
      sorted := s;
      err := GraphCheck.OutcomeError(out);
      if out.Dangling? {
        assert !GraphCheck.Closed(UsesGraph(verifiers)) by {
          assert GraphCheck.Edge(UsesGraph(verifiers), out.requiredBy, out.dep);
        }
      }
    }
  }
}

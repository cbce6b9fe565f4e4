/** The startup check of checkForLoops.js: a depth-first walk over every registered
    verifier's `uses` edges that rejects a dependency cycle, reporting its path, and
    otherwise lists the verifiers in post-order (dependencies first). */
module GraphCheck {
  import opened Common
  import opened Values

  /** The dependency graph: every registered verifier's name mapped to its `uses` list. */
  type Graph = map<string, seq<string>>

  ghost predicate Edge(g: Graph, a: string, b: string) {
    a in g && b in g[a]
  }

  /** `p` follows `uses` edges from its first element to its last. */
  ghost predicate IsPath(g: Graph, p: seq<string>) {
    forall i :: 0 <= i < |p| - 1 ==> Edge(g, p[i], p[i + 1])
  }

  /** `p` is a closed chain of at least one edge. */
  ghost predicate IsCycle(g: Graph, p: seq<string>) {
    |p| >= 2 && IsPath(g, p) && p[0] == p[|p| - 1]
  }

  ghost predicate Cyclic(g: Graph) {
    exists p :: IsCycle(g, p)
  }

  /** Every dependency names a registered verifier. */
  ghost predicate Closed(g: Graph) {
    forall a, b :: a in g && b in g[a] ==> b in g
  }

  /** `s[i]` is registered and all its `uses` occur before it in `s`. */
  ghost predicate DepsBefore(g: Graph, s: seq<string>, i: int)
    requires 0 <= i < |s|
  {
    s[i] in g && forall d :: d in g[s[i]] ==> d in s[..i]
  }

  /** Every element of `s` comes after all of its dependencies. */
  ghost predicate Topological(g: Graph, s: seq<string>) {
    forall i :: 0 <= i < |s| ==> DepsBefore(g, s, i)
  }

  /** How a walk ends: normally, at a back edge `by -> dep` with the ancestor path, or at
      a dependency that is not registered (where the source reads `uses` of `undefined`). */
  datatype Outcome =
    | Done
    | Cycle(dep: string, requiredBy: string, path: seq<string>)
    | Dangling(dep: string, requiredBy: string)

  /** The message of the error the source throws at checkForLoops.js:28. */
  function CycleReason(dep: string, requiredBy: string, path: seq<string>): string {
    "Circular dependency \"" + dep + "\" is required by \"" + requiredBy + "\": " + Join(path, " -> ")
  }

  /** The error the startup check raises for an outcome; none for `Done`. */
  function OutcomeError(o: Outcome): (r: Option<Error>)
    ensures r.None? <==> o.Done?
    ensures o.Cycle? ==> r == Some(VerifierError(500, CycleReason(o.dep, o.requiredBy, o.path)))
  {
    match o
    case Done => None
    case Cycle(dep, requiredBy, path) => Some(VerifierError(500, CycleReason(dep, requiredBy, path)))
    case Dangling(dep, _) => Some(RuntimeFault("TypeError: Cannot read property 'uses' of undefined (" + dep + ")"))
  }

  /** The state a walk keeps between calls: what is sorted is closed downwards, duplicate
      free and visited; a visited node that is not yet sorted is one of the ancestors. */
  ghost predicate WalkState(g: Graph, ancestors: seq<string>, visited: set<string>, sorted: seq<string>) {
    && Topological(g, sorted)
    && NoDup(sorted)
    && Elems(sorted) <= visited
    && visited <= g.Keys
    && visited - Elems(sorted) <= Elems(ancestors)
  }

  /** `visit(name, ancestors)` of checkForLoops.js:19-35. The ancestor list is a value,
      so every recursive call gets its own copy, as `ancestors.slice(0)` gives it. */
  method Visit(g: Graph, name: string, ancestors: seq<string>, visited: set<string>, sorted: seq<string>)
    returns (visited': set<string>, sorted': seq<string>, out: Outcome)
    requires name in g
    requires IsPath(g, ancestors + [name])
    requires WalkState(g, ancestors + [name], visited + {name}, sorted)
    decreases |g.Keys - visited|, if name in visited then 1 else 0
    ensures visited <= visited' && sorted <= sorted'
    ensures Topological(g, sorted') && NoDup(sorted') && Elems(sorted') <= g.Keys
    ensures out.Done? ==> name in sorted' && WalkState(g, ancestors, visited', sorted')
    ensures out.Cycle? ==>
              && |out.path| > 0 && IsPath(g, out.path) && ancestors + [name] <= out.path
              && out.path[|out.path| - 1] == out.requiredBy && Edge(g, out.requiredBy, out.dep) && out.dep in out.path
    ensures out.Dangling? ==> Edge(g, out.requiredBy, out.dep) && out.dep !in g
  {
    var path := ancestors + [name];
    visited' := visited + {name};
    sorted' := sorted;
    var deps := g[name];
    var i := 0;
    while i < |deps|
      invariant 0 <= i <= |deps|
      invariant visited + {name} <= visited' && sorted <= sorted'
      invariant WalkState(g, path, visited', sorted')
      invariant forall j :: 0 <= j < i ==> deps[j] in sorted'
    {
      var dep := deps[i];
      if dep in path {
        return visited', sorted', Cycle(dep, name, path);
      }
      if dep in visited' {
        VisitedOffPathIsSorted(g, path, visited', sorted', dep);
      } else {
        if dep !in g {
          return visited', sorted', Dangling(dep, name);
        }
        MeasureShrinks(g.Keys, visited, visited', name);
        EnterDependency(g, path, visited', sorted', dep);
        var v, s, o := Visit(g, dep, path, visited', sorted');
        if !o.Done? {
          return v, s, o;
        }
        PrefixKeepsAll(sorted', s, deps[..i]);
        visited', sorted' := v, s;
      }
      i := i + 1;
    }
    ghost var before := sorted';
    if name !in sorted' {
      sorted' := sorted' + [name];
    }
    Finish(g, ancestors, name, visited', before, sorted');
    out := Done;
  }

  lemma VisitedOffPathIsSorted(g: Graph, path: seq<string>, visited: set<string>, sorted: seq<string>, dep: string)
    requires WalkState(g, path, visited, sorted)
    requires dep in visited && dep !in path
    ensures dep in sorted
  {
    assert dep !in Elems(path);
  }

  lemma MeasureShrinks(universe: set<string>, before: set<string>, now: set<string>, name: string)
    requires before + {name} <= now && name in universe
    ensures |universe - now| <= |universe - before|
    ensures name !in before ==> |universe - now| < |universe - before|
  {
    ShrinkingComplement(universe, before, now);
    if name !in before {
      AddShrinksComplement(universe, before, name);
      ShrinkingComplement(universe, before + {name}, now);
    }
  }

  lemma EnterDependency(g: Graph, path: seq<string>, visited: set<string>, sorted: seq<string>, dep: string)
    requires WalkState(g, path, visited, sorted) && IsPath(g, path) && |path| > 0
    requires dep in g && Edge(g, path[|path| - 1], dep)
    ensures WalkState(g, path + [dep], visited + {dep}, sorted) && IsPath(g, path + [dep])
  {
    ElemsAppend(path, dep);
  }

  lemma PrefixKeepsAll(s: seq<string>, t: seq<string>, xs: seq<string>)
    requires s <= t && forall x :: x in xs ==> x in s
    ensures forall x :: x in xs ==> x in t
  {
    forall x | x in xs ensures x in t {
      PrefixKeeps(s, t, x);
    }
  }

  /** The post-order append of checkForLoops.js:34, and the walk state it leaves. */
  lemma Finish(g: Graph, ancestors: seq<string>, name: string, visited: set<string>, sorted: seq<string>, sorted': seq<string>)
    requires name in g && name in visited
    requires WalkState(g, ancestors + [name], visited, sorted)
    requires forall d :: d in g[name] ==> d in sorted
    requires sorted' == if name in sorted then sorted else sorted + [name]
    ensures sorted <= sorted' && name in sorted' && WalkState(g, ancestors, visited, sorted')
  {
    if name !in sorted {
      TopologicalExtend(g, sorted, name);
      ElemsAppend(sorted, name);
    }
    ElemsAppend(ancestors, name);
    assert name in Elems(sorted');
    forall x | x in visited - Elems(sorted') ensures x in Elems(ancestors) {
      assert x in Elems(ancestors + [name]) && x != name;
    }
  }

  lemma PrefixKeeps(s: seq<string>, t: seq<string>, x: string)
    requires s <= t && x in s
    ensures x in t
  {
    var i :| 0 <= i < |s| && s[i] == x;
    assert t[i] == x;
  }

  lemma TopologicalExtend(g: Graph, s: seq<string>, n: string)
    requires Topological(g, s) && NoDup(s) && n in g && n !in s
    requires forall d :: d in g[n] ==> d in s
    ensures Topological(g, s + [n]) && NoDup(s + [n])
  {
    var t := s + [n];
    forall i | 0 <= i < |t| ensures DepsBefore(g, t, i) {
      assert t[..i] == if i < |s| then s[..i] else s;
      if i < |s| { assert DepsBefore(g, s, i); }
    }
  }

  /** The driver of checkForLoops.js:10-17: visit every registered verifier in the
      order of `names` (the key order of the registry), filling `sorted`. */
  method CheckForLoops(g: Graph, names: seq<string>) returns (sorted: seq<string>, out: Outcome)
    requires forall n :: n in names <==> n in g
    ensures Topological(g, sorted) && NoDup(sorted) && Elems(sorted) <= g.Keys
    ensures out.Done? ==> Topological(g, sorted) && NoDup(sorted) && Elems(sorted) == g.Keys
    ensures out.Cycle? ==> |out.path| > 0 && IsPath(g, out.path) && out.path[|out.path| - 1] == out.requiredBy
                           && Edge(g, out.requiredBy, out.dep) && out.dep in out.path
    ensures out.Dangling? ==> Edge(g, out.requiredBy, out.dep) && out.dep !in g
    ensures out.Done? ==> !Cyclic(g) && Closed(g)
    ensures out.Cycle? ==> Cyclic(g)
    ensures Closed(g) ==> !out.Dangling?
  {
    sorted := [];
    var visited: set<string> := {};
    var i := 0;
    while i < |names|
      invariant 0 <= i <= |names|
      invariant WalkState(g, [], visited, sorted)
      invariant forall j :: 0 <= j < i ==> names[j] in sorted
    {
      ElemsAppend([], names[i]);
      var v, s, o := Visit(g, names[i], [], visited, sorted);
      if !o.Done? {
        if o.Cycle? {
          BackEdgeIsCycle(g, o.path, o.requiredBy, o.dep);
        }
        return s, o;
      }
      visited, sorted := v, s;
      i := i + 1;
    }
    assert forall n :: n in g ==> n in sorted;
    TopologicalIsAcyclic(g, sorted);
    assert Closed(g) by {
      forall a, b | a in g && b in g[a] ensures b in g {
        var i :| 0 <= i < |sorted| && sorted[i] == a;
        assert DepsBefore(g, sorted, i);
        assert b in sorted[..i];
      }
    }
    out := Done;
  }

  /** The position of `x` in `s`. */
  ghost function IndexOf(s: seq<string>, x: string): (i: nat)
    requires x in s
    ensures i < |s| && s[i] == x
  {
    if s[0] == x then 0 else 1 + IndexOf(s[1..], x)
  }

  lemma IndexOfUnique(s: seq<string>, j: nat)
    requires NoDup(s) && j < |s|
    ensures IndexOf(s, s[j]) == j
  {
  }

  /** In a topological order a dependency sits strictly before its dependent. */
  lemma EdgeDescends(g: Graph, s: seq<string>, a: string, b: string)
    requires Topological(g, s) && NoDup(s) && a in s && Edge(g, a, b)
    ensures b in s && IndexOf(s, b) < IndexOf(s, a)
  {
    var i := IndexOf(s, a);
    assert DepsBefore(g, s, i);
    assert b in s[..i];
    var j :| 0 <= j < i && s[..i][j] == b;
    IndexOfUnique(s, j);
  }

  lemma {:induction false} PathDescends(g: Graph, s: seq<string>, p: seq<string>)
    requires Topological(g, s) && NoDup(s) && (forall x :: x in g ==> x in s)
    requires IsPath(g, p) && |p| >= 2
    ensures p[0] in s && p[|p| - 1] in s && IndexOf(s, p[|p| - 1]) < IndexOf(s, p[0])
  {
    assert Edge(g, p[0], p[1]);
    EdgeDescends(g, s, p[0], p[1]);
    if |p| > 2 {
      var tail := p[1..];
      assert IsPath(g, tail) by {
        forall i | 0 <= i < |tail| - 1 ensures Edge(g, tail[i], tail[i + 1]) {
          assert Edge(g, p[i + 1], p[i + 2]);
        }
      }
      PathDescends(g, s, tail);
    }
  }

  /** A graph that has a topological order of all its nodes has no cycle. */
  lemma TopologicalIsAcyclic(g: Graph, s: seq<string>)
    requires Topological(g, s) && NoDup(s) && (forall x :: x in g ==> x in s)
    ensures !Cyclic(g)
  {
    forall p | IsCycle(g, p) ensures false {
      PathDescends(g, s, p);
    }
  }

  /** The back edge the walk reports closes a cycle: from `dep`, along the reported
      path, to `requiredBy`, and back to `dep`. */
  lemma BackEdgeIsCycle(g: Graph, path: seq<string>, requiredBy: string, dep: string)
    requires |path| > 0 && IsPath(g, path) && path[|path| - 1] == requiredBy
    requires Edge(g, requiredBy, dep) && dep in path
    ensures Cyclic(g)
  {
    var j :| 0 <= j < |path| && path[j] == dep;
    var c := path[j..] + [dep];
    assert IsCycle(g, c) by {
      forall i | 0 <= i < |c| - 1 ensures Edge(g, c[i], c[i + 1]) {
        if j + i + 1 < |path| {
          assert Edge(g, path[j + i], path[j + i + 1]);
        }
      }
    }
  }
}

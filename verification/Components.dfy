/**
 Dependency ordering of components: a depth-first search with three colours that
 reports unknown dependencies and cycles and otherwise returns a start order.
 */
module Components {
  import opened Options
  import opened GoStrings

  /** A component that is not dependency-aware has an empty `dependsOn`. */
  datatype Component = Component(name: string, dependsOn: seq<string>)

  datatype OrderError = Cycle(path: seq<string>) | UnknownDependency(component: string, dependency: string)

  datatype Outcome = Ordered(components: seq<Component>) | Failed(error: OrderError)

  type Graph = map<string, Component>

  /** Dependency names are trimmed, and blank ones are ignored. */
  ghost predicate Needs(c: Component, dependency: string) {
    dependency != "" && exists i :: 0 <= i < |c.dependsOn| && TrimSpace(c.dependsOn[i]) == dependency
  }

  /** A dependency is what some entry says once the space around it is taken away. */
  lemma NeedsPadded(c: Component, dependency: string)
    ensures Needs(c, dependency) <==>
              dependency != "" && exists i :: 0 <= i < |c.dependsOn| && Pads(c.dependsOn[i], dependency)
  {
    forall i | 0 <= i < |c.dependsOn| ensures TrimSpace(c.dependsOn[i]) == dependency <==> Pads(c.dependsOn[i], dependency) {
      TrimSpaceIsCore(c.dependsOn[i], dependency);
    }
  }

  ghost predicate UniqueNames(components: seq<Component>) {
    forall i, j :: 0 <= i < j < |components| ==> components[i].name != components[j].name
  }

  function ByName(components: seq<Component>): Graph {
    if components == [] then map[]
    else
      var last := components[|components| - 1];
      ByName(components[..|components| - 1])[last.name := last]
  }

  ghost predicate Edge(g: Graph, a: string, b: string) {
    a in g && Needs(g[a], b)
  }

  ghost predicate IsPath(g: Graph, p: seq<string>) {
    p != [] && forall i :: 0 <= i < |p| - 1 ==> Edge(g, p[i], p[i + 1])
  }

  ghost predicate Reaches(g: Graph, a: string, b: string) {
    exists p :: IsPath(g, p) && p[0] == a && p[|p| - 1] == b
  }

  /** A dependency path that ends at a name it has already visited. */
  ghost predicate ClosesCycle(g: Graph, p: seq<string>) {
    IsPath(g, p) && p[|p| - 1] in p[..|p| - 1]
  }

  ghost predicate Acyclic(g: Graph) {
    forall p :: !ClosesCycle(g, p)
  }

  ghost predicate AllKnown(g: Graph) {
    forall a, b :: Edge(g, a, b) ==> b in g
  }

  /** Every dependency of an element stands before it. */
  ghost predicate DepsBefore(order: seq<Component>) {
    forall i, d :: 0 <= i < |order| && Needs(order[i], d) ==> exists j :: 0 <= j < i && order[j].name == d
  }

  /**
   Stability of the first `n` components: what is started before one of them is needed
   by that component or by one registered earlier.
   */
  ghost predicate Stable(g: Graph, components: seq<Component>, order: seq<Component>, n: nat)
    requires n <= |components|
  {
    forall k, p, q :: 0 <= k < n && 0 <= p < q < |order| && order[q] == components[k] ==>
      NeededByOne(g, components, order[p].name, k + 1)
  }

  /** One of the first `n` components needs `name`, directly or not. */
  ghost predicate NeededByOne(g: Graph, components: seq<Component>, name: string, n: nat)
    requires n <= |components|
  {
    exists j :: 0 <= j < n && Reaches(g, components[j].name, name)
  }

  ghost predicate NeededBy(g: Graph, components: seq<Component>, order: seq<Component>, n: nat)
    requires n <= |components|
  {
    forall p :: 0 <= p < |order| ==> NeededByOne(g, components, order[p].name, n)
  }

  ghost predicate Justified(g: Graph, error: OrderError) {
    match error
    case Cycle(path) => ClosesCycle(g, path)
    case UnknownDependency(component, dependency) => Edge(g, component, dependency) && dependency !in g
  }

  // ------------------------------------------------------------- paths and names

  lemma {:induction false} ByNameMembers(components: seq<Component>)
    ensures forall n :: n in ByName(components) ==> ByName(components)[n].name == n && ByName(components)[n] in components
    ensures forall c :: c in components ==> c.name in ByName(components)
    ensures UniqueNames(components) ==> forall c :: c in components ==> ByName(components)[c.name] == c
  {
    if components != [] {
      var n := |components| - 1;
      ByNameMembers(components[..n]);
      assert components == components[..n] + [components[n]];
    }
  }

  lemma ByNameAt(components: seq<Component>, i: nat)
    requires UniqueNames(components) && i < |components|
    ensures Find(ByName(components), components[i].name) == Some(components[i])
  {
  }

  lemma PathExtends(g: Graph, p: seq<string>, b: string)
    requires IsPath(g, p) && Edge(g, p[|p| - 1], b)
    ensures IsPath(g, p + [b])
  {
  }

  lemma ReachesSelf(g: Graph, a: string)
    ensures Reaches(g, a, a)
  {
    assert IsPath(g, [a]);
  }

  lemma ReachesStep(g: Graph, a: string, b: string, c: string)
    requires Edge(g, a, b) && Reaches(g, b, c)
    ensures Reaches(g, a, c)
  {
    var p :| IsPath(g, p) && p[0] == b && p[|p| - 1] == c;
    assert IsPath(g, [a] + p);
  }

  // ------------------------------------------------------------------ the search

  /** 1: on the current path, 2: ordered. */
  type Colours = map<string, int>

  ghost predicate Sound(g: Graph, state: Colours, ordered: seq<Component>) {
    && (forall n :: n in g ==> g[n].name == n)
    && (forall n :: n in state ==> n in g && (state[n] == 1 || state[n] == 2))
    && (forall n :: n in state && state[n] == 2 ==> g[n] in ordered)
    && (forall c :: c in ordered ==> Find(state, c.name) == Some(2) && g[c.name] == c)
    && UniqueNames(ordered) && DepsBefore(ordered)
  }

  /** The names in state 1 are the ones on `path`. */
  ghost predicate OnPath(state: Colours, path: seq<string>) {
    forall n :: n in path <==> Find(state, n) == Some(1)
  }

  /** What a visit may do: order more components, all needed by `from`, and leave other names alone. */
  ghost predicate Grown(g: Graph, from: string, state: Colours, ordered: seq<Component>,
                        state': Colours, ordered': seq<Component>) {
    && ordered <= ordered' && state.Keys <= state'.Keys
    && (forall n :: n in state ==> state'[n] == state[n])
    && (forall n :: n in state' && n !in state ==> state'[n] == 2)
    && (forall i :: |ordered| <= i < |ordered'| ==> Reaches(g, from, ordered'[i].name))
  }

  lemma GrownChain(g: Graph, from: string, dependency: string, s0: Colours, o0: seq<Component>,
                   s1: Colours, o1: seq<Component>, s2: Colours, o2: seq<Component>)
    requires Grown(g, from, s0, o0, s1, o1) && Grown(g, dependency, s1, o1, s2, o2) && Edge(g, from, dependency)
    ensures Grown(g, from, s0, o0, s2, o2)
  {
    forall i | |o0| <= i < |o2| ensures Reaches(g, from, o2[i].name) {
      if i < |o1| {
        assert o2[i] == o1[i];
      } else {
        ReachesStep(g, from, dependency, o2[i].name);
      }
    }
  }

  lemma Enter(g: Graph, name: string, path: seq<string>, state: Colours, ordered: seq<Component>)
    requires Sound(g, state, ordered) && OnPath(state, path) && name in g && name !in state
    ensures Sound(g, state[name := 1], ordered) && OnPath(state[name := 1], path + [name])
  {
  }

  lemma StaysOnPath(g: Graph, from: string, path: seq<string>, s0: Colours, o0: seq<Component>,
                    s1: Colours, o1: seq<Component>)
    requires OnPath(s0, path) && Grown(g, from, s0, o0, s1, o1)
    ensures OnPath(s1, path)
  {
  }

  /** The first `n` dependencies of `c` are ordered (or blank). */
  ghost predicate VisitedFirst(state: Colours, c: Component, n: nat)
    requires n <= |c.dependsOn|
  {
    forall k :: 0 <= k < n ==> TrimSpace(c.dependsOn[k]) == "" || Find(state, TrimSpace(c.dependsOn[k])) == Some(2)
  }

  lemma DependencyDone(g: Graph, c: Component, i: nat, here: seq<string>, s0: Colours, o0: seq<Component>,
                       s1: Colours, o1: seq<Component>, s2: Colours, o2: seq<Component>)
    requires i < |c.dependsOn| && Edge(g, c.name, TrimSpace(c.dependsOn[i]))
    requires Grown(g, c.name, s0, o0, s1, o1) && OnPath(s1, here) && VisitedFirst(s1, c, i)
    requires Grown(g, TrimSpace(c.dependsOn[i]), s1, o1, s2, o2) && Find(s2, TrimSpace(c.dependsOn[i])) == Some(2)
    ensures Grown(g, c.name, s0, o0, s2, o2) && OnPath(s2, here) && VisitedFirst(s2, c, i + 1)
  {
    GrownChain(g, c.name, TrimSpace(c.dependsOn[i]), s0, o0, s1, o1, s2, o2);
  }

  /** Leaving: the whole visit has only grown the order. */
  lemma Leave(g: Graph, c: Component, s0: Colours, o0: seq<Component>, s1: Colours, o1: seq<Component>)
    requires c.name !in s0 && Grown(g, c.name, s0[c.name := 1], o0, s1, o1)
    ensures Grown(g, c.name, s0, o0, s1[c.name := 2], o1 + [c])
  {
    ReachesSelf(g, c.name);
  }

  /** All dependencies are ordered: the component itself may be appended. */
  lemma Append(g: Graph, c: Component, path: seq<string>, state: Colours, ordered: seq<Component>)
    requires Sound(g, state, ordered) && OnPath(state, path + [c.name]) && c.name in g && g[c.name] == c
    requires VisitedFirst(state, c, |c.dependsOn|)
    ensures Sound(g, state[c.name := 2], ordered + [c])
  {
    assert c.name in path + [c.name];
    var order := ordered + [c];
    forall i, d | 0 <= i < |order| && Needs(order[i], d) ensures exists j :: 0 <= j < i && order[j].name == d {
      if i < |ordered| {
        var j :| 0 <= j < i && ordered[j].name == d;
        assert order[j].name == d;
      } else {
        var j :| 0 <= j < |ordered| && ordered[j] == g[d];
        assert order[j].name == d;
      }
    }
  }

  class Orderer {
    const byName: Graph
    var state: Colours
    var ordered: seq<Component>

    constructor (byName: Graph)
      ensures this.byName == byName && state == map[] && ordered == []
    {
      this.byName := byName;
      state, ordered := map[], [];
    }

    method Visit(component: Component, path: seq<string>) returns (error: Option<OrderError>)
      requires Sound(byName, state, ordered) && OnPath(state, path)
      requires component.name in byName && byName[component.name] == component
      requires IsPath(byName, path + [component.name])
      modifies this
      decreases byName.Keys - state.Keys, 0
      ensures error.Some? ==> Justified(byName, error.value)
      ensures error.None? ==> Sound(byName, state, ordered) && Find(state, component.name) == Some(2)
      ensures error.None? ==> Grown(byName, component.name, old(state), old(ordered), state, ordered)
    {
      var name := component.name;
      var here := path + [name];
      if name in state {
        if state[name] == 1 {
          assert here[|here| - 1] == name && here[..|here| - 1] == path;
          return Some(Cycle(here));
        }
        return None;
      }
      Enter(byName, name, path, state, ordered);
      state := state[name := 1];
      error := VisitDependencies(component, here);
      if error.Some? {
        return error;
      }
      Append(byName, component, path, state, ordered);
      Leave(byName, component, old(state), old(ordered), state, ordered);
      state := state[name := 2];
      ordered := ordered + [component];
    }

    /** The loop of Visit over DependsOn, with the component on the path. */
    method VisitDependencies(component: Component, here: seq<string>) returns (error: Option<OrderError>)
      requires Sound(byName, state, ordered) && OnPath(state, here) && IsPath(byName, here)
      requires here[|here| - 1] == component.name && component.name in byName && byName[component.name] == component
      modifies this
      decreases byName.Keys - state.Keys, 1
      ensures error.Some? ==> Justified(byName, error.value)
      ensures error.None? ==> Sound(byName, state, ordered) && OnPath(state, here)
      ensures error.None? ==> VisitedFirst(state, component, |component.dependsOn|)
      ensures error.None? ==> Grown(byName, component.name, old(state), old(ordered), state, ordered)
    {
      for i := 0 to |component.dependsOn|
        invariant Sound(byName, state, ordered) && OnPath(state, here)
        invariant Grown(byName, component.name, old(state), old(ordered), state, ordered)
        invariant VisitedFirst(state, component, i)
      {
        var dependency := TrimSpace(component.dependsOn[i]);
        if dependency != "" {
          assert Edge(byName, component.name, dependency);
          if dependency !in byName {
            return Some(UnknownDependency(component.name, dependency));
          }
          PathExtends(byName, here, dependency);
          ghost var before, done := state, ordered;
          error := Visit(byName[dependency], here);
          if error.Some? {
            return error;
          }
          DependencyDone(byName, component, i, here, old(state), old(ordered), before, done, state, ordered);
        }
      }
      return None;
    }

    /** The loop of orderComponents over the registration. */
    method VisitAll(components: seq<Component>) returns (error: Option<OrderError>)
      requires UniqueNames(components) && byName == ByName(components) && state == map[] && ordered == []
      modifies this
      ensures error.Some? ==> Justified(byName, error.value)
      ensures error.None? ==> Sound(byName, state, ordered) && FirstOrdered(components, |components|, ordered)
      ensures error.None? ==> Stable(byName, components, ordered, |components|)
    {
      SearchBegins(components);
      for i := 0 to |components|
        invariant Searched(byName, components, state, ordered, i)
      {
        ghost var before, done := state, ordered;
        ByNameAt(components, i);
        assert IsPath(byName, [] + [components[i].name]);
        error := Visit(components[i], []);
        if error.Some? {
          return error;
        }
        SearchNext(byName, components, before, done, state, ordered, i);
      }
      return None;
    }
  }

  /** The first `n` components are ordered, with what they need and nothing else. */
  ghost predicate Searched(g: Graph, components: seq<Component>, state: Colours, order: seq<Component>, n: nat)
    requires n <= |components|
  {
    && Sound(g, state, order) && OnPath(state, [])
    && FirstOrdered(components, n, order) && Stable(g, components, order, n) && NeededBy(g, components, order, n)
  }

  lemma SearchBegins(components: seq<Component>)
    ensures Searched(ByName(components), components, map[], [], 0)
  {
    ByNameMembers(components);
  }

  lemma SearchNext(g: Graph, components: seq<Component>, before: Colours, done: seq<Component>,
                   state: Colours, order: seq<Component>, i: nat)
    requires i < |components| && Searched(g, components, before, done, i)
    requires Sound(g, state, order) && Find(state, components[i].name) == Some(2)
    requires Find(g, components[i].name) == Some(components[i])
    requires Grown(g, components[i].name, before, done, state, order)
    ensures Searched(g, components, state, order, i + 1)
  {
    StaysOnPath(g, components[i].name, [], before, done, state, order);
    NeededNext(g, components, done, order, i);
    StableNext(g, components, done, order, i);
    FirstOrderedNext(components, i, done, order);
  }

  method BuildByName(components: seq<Component>) returns (byName: Graph)
    ensures byName == ByName(components)
  {
    byName := map[];
    for i := 0 to |components|
      invariant byName == ByName(components[..i])
    {
      assert components[..i + 1][..i] == components[..i];
      byName := byName[components[i].name := components[i]];
    }
    assert components[..|components|] == components;
  }

  method OrderComponents(components: seq<Component>) returns (r: Outcome)
    requires UniqueNames(components)
    ensures r.Ordered? <==> AllKnown(ByName(components)) && Acyclic(ByName(components))
    ensures r.Failed? ==> Justified(ByName(components), r.error)
    ensures r.Ordered? ==> multiset(r.components) == multiset(components)
    ensures r.Ordered? ==> DepsBefore(r.components) && Stable(ByName(components), components, r.components, |components|)
  {
    var byName := BuildByName(components);
    var search := new Orderer(byName);
    var error := search.VisitAll(components);
    if error.Some? {
      JustifiedRefutes(byName, error.value);
      return Failed(error.value);
    }
    OrderedIsSound(components, search.state, search.ordered);
    return Ordered(search.ordered);
  }

  lemma JustifiedRefutes(g: Graph, error: OrderError)
    requires Justified(g, error)
    ensures !(AllKnown(g) && Acyclic(g))
  {
  }

  ghost predicate FirstOrdered(components: seq<Component>, n: nat, order: seq<Component>)
    requires n <= |components|
  {
    forall k :: 0 <= k < n ==> components[k] in order
  }

  lemma FirstOrderedNext(components: seq<Component>, n: nat, done: seq<Component>, order: seq<Component>)
    requires n < |components| && FirstOrdered(components, n, done) && done <= order && components[n] in order
    ensures FirstOrdered(components, n + 1, order)
  {
  }

  lemma NeededNext(g: Graph, components: seq<Component>, done: seq<Component>, order: seq<Component>, i: nat)
    requires i < |components| && done <= order && NeededBy(g, components, done, i)
    requires forall p :: |done| <= p < |order| ==> Reaches(g, components[i].name, order[p].name)
    ensures NeededBy(g, components, order, i + 1)
  {
  }

  lemma StableNext(g: Graph, components: seq<Component>, done: seq<Component>, order: seq<Component>, i: nat)
    requires i < |components| && UniqueNames(order) && done <= order
    requires FirstOrdered(components, i, done)
    requires Stable(g, components, done, i) && NeededBy(g, components, order, i + 1)
    ensures Stable(g, components, order, i + 1)
  {
  }

  // ------------------------------------------------------- what the order means

  /** In an order with dependencies first, a path runs strictly towards the front. */
  lemma {:induction false} PathRunsBackwards(g: Graph, order: seq<Component>, p: seq<string>, i: nat, j: nat) returns (a: nat, b: nat)
    requires DepsBefore(order) && IsPath(g, p) && i <= j < |p|
    requires forall c :: c in order ==> c.name in g && g[c.name] == c
    requires exists k :: 0 <= k < |order| && order[k].name == p[i]
    ensures b < |order| && order[b].name == p[i]
    ensures a < |order| && order[a].name == p[j] && (if i < j then a < b else a == b)
    decreases j
  {
    if i == j {
      b :| b < |order| && order[b].name == p[i];
      a := b;
    } else {
      var a0: nat;
      a0, b := PathRunsBackwards(g, order, p, i, j - 1);
      assert Edge(g, p[j - 1], p[j]) && order[a0] in order;
      a :| 0 <= a < a0 && order[a].name == p[j];
    }
  }

  lemma SameElements(a: seq<Component>, b: seq<Component>)
    requires UniqueNames(a) && UniqueNames(b) && forall c :: c in a <==> c in b
    ensures multiset(a) == multiset(b)
  {
    forall c ensures multiset(a)[c] == multiset(b)[c] {
      OnceOnly(a, c);
      OnceOnly(b, c);
    }
  }

  lemma {:induction false} OnceOnly(a: seq<Component>, c: Component)
    requires UniqueNames(a)
    ensures multiset(a)[c] == if c in a then 1 else 0
  {
    if a != [] {
      var n := |a| - 1;
      assert a == a[..n] + [a[n]];
      OnceOnly(a[..n], c);
    }
  }

  lemma EdgeInOrder(g: Graph, order: seq<Component>, a: string, b: string)
    requires DepsBefore(order) && Edge(g, a, b) && g[a] in order
    requires forall c :: c in order ==> c.name in g
    ensures b in g
  {
  }

  lemma OrderIsAcyclic(g: Graph, order: seq<Component>)
    requires UniqueNames(order) && DepsBefore(order)
    requires forall c :: c in order ==> c.name in g && g[c.name] == c
    requires forall n :: n in g ==> g[n] in order && g[n].name == n
    ensures Acyclic(g)
  {
    forall p ensures !ClosesCycle(g, p) {
      if ClosesCycle(g, p) {
        var j := |p| - 1;
        var i :| 0 <= i < j && p[i] == p[j];
        assert Edge(g, p[i], p[i + 1]) && g[p[i]] in order;
        var a, b := PathRunsBackwards(g, order, p, i, j);
        assert false;
      }
    }
  }

  lemma OrderedIsSound(components: seq<Component>, state: Colours, order: seq<Component>)
    requires UniqueNames(components) && Sound(ByName(components), state, order)
    requires FirstOrdered(components, |components|, order)
    ensures AllKnown(ByName(components)) && Acyclic(ByName(components))
    ensures multiset(order) == multiset(components)
  {
    var g := ByName(components);
    ByNameMembers(components);
    forall a, b | Edge(g, a, b) ensures b in g {
      EdgeInOrder(g, order, a, b);
    }
    OrderIsAcyclic(g, order);
    SameElements(order, components);
  }

  /** Position of a name in the registration order. */
  lemma {:induction false} ReachedEarlier(components: seq<Component>, p: seq<string>, j: nat) returns (k: nat)
    requires UniqueNames(components) && DepsBefore(components) && IsPath(ByName(components), p)
    requires j < |components| && p[0] == components[j].name
    ensures k <= j && components[k].name == p[|p| - 1]
  {
    ByNameMembers(components);
    var a, b := PathRunsBackwards(ByName(components), components, p, 0, |p| - 1);
    k := a;
  }

  lemma {:induction false} IncreasingIsIdentity(index: seq<nat>, n: nat, p: nat)
    requires |index| == n && p < n
    requires forall i, j :: 0 <= i < j < n ==> index[i] < index[j]
    requires forall i :: 0 <= i < n ==> index[i] < n
    ensures index[p] == p
  {
    AtLeast(index, p);
    AtMost(index, p);
  }

  lemma {:induction false} AtLeast(index: seq<nat>, p: nat)
    requires p < |index| && forall i, j :: 0 <= i < j < |index| ==> index[i] < index[j]
    ensures index[p] >= p
  {
    if p > 0 { AtLeast(index, p - 1); }
  }

  lemma {:induction false} AtMost(index: seq<nat>, p: nat)
    requires p < |index| && forall i, j :: 0 <= i < j < |index| ==> index[i] < index[j]
    requires forall i :: 0 <= i < |index| ==> index[i] < |index|
    ensures index[p] <= p
    decreases |index| - p
  {
    if p + 1 < |index| { AtMost(index, p + 1); }
  }

  function IndexOf(components: seq<Component>, c: Component): nat
    requires c in components
    ensures IndexOf(components, c) < |components| && components[IndexOf(components, c)] == c
  {
    if components[0] == c then 0 else 1 + IndexOf(components[1..], c)
  }

  lemma TwiceNotOnce(order: seq<Component>, p: nat, q: nat)
    requires p < q < |order| && order[p] == order[q]
    ensures multiset(order)[order[p]] >= 2
  {
    assert order == order[..q] + [order[q]] + order[q + 1..];
    assert order[..q][p] in multiset(order[..q]);
  }

  lemma PermutationOnce(components: seq<Component>, order: seq<Component>)
    requires UniqueNames(components) && multiset(order) == multiset(components)
    ensures |order| == |components| && forall c :: c in order ==> c in components
    ensures forall p, q :: 0 <= p < q < |order| ==> order[p] != order[q]
  {
    assert |order| == |multiset(order)| == |multiset(components)| == |components|;
    forall c | c in order ensures c in components {
      assert c in multiset(order);
    }
    forall p, q | 0 <= p < q < |order| ensures order[p] != order[q] {
      OnceOnly(components, order[p]);
      if order[p] == order[q] { TwiceNotOnce(order, p, q); }
    }
  }

  /** When the registration respects the dependencies, what `b` or an earlier one needs is registered before `b`. */
  lemma EarlierRegistered(components: seq<Component>, a: Component, b: Component)
    requires UniqueNames(components) && DepsBefore(components)
    requires a in components && b in components && a != b
    requires NeededByOne(ByName(components), components, a.name, IndexOf(components, b) + 1)
    ensures IndexOf(components, a) < IndexOf(components, b)
  {
    var j :| 0 <= j <= IndexOf(components, b) && Reaches(ByName(components), components[j].name, a.name);
    var path :| IsPath(ByName(components), path) && path[0] == components[j].name && path[|path| - 1] == a.name;
    var e := ReachedEarlier(components, path, j);
    assert components[IndexOf(components, a)].name == components[e].name;
  }

  /**
   A stable order with dependencies first is the registration itself if and only if the
   registration already respects the dependencies.
   */
  lemma RegistrationOrderKept(components: seq<Component>, order: seq<Component>)
    requires UniqueNames(components) && DepsBefore(order)
    requires multiset(order) == multiset(components) && Stable(ByName(components), components, order, |components|)
    ensures order == components <==> DepsBefore(components)
  {
    if DepsBefore(components) {
      RegistrationKept(components, order);
    }
  }

  lemma RegistrationKept(components: seq<Component>, order: seq<Component>)
    requires UniqueNames(components) && DepsBefore(components)
    requires multiset(order) == multiset(components) && Stable(ByName(components), components, order, |components|)
    ensures order == components
  {
    PermutationOnce(components, order);
    var index := seq(|order|, i requires 0 <= i < |order| => IndexOf(components, order[i]));
    forall p, q | 0 <= p < q < |order| ensures index[p] < index[q] {
      assert order[q] == components[index[q]];
      EarlierRegistered(components, order[p], order[q]);
    }
    forall p | 0 <= p < |order| ensures order[p] == components[p] {
      IncreasingIsIdentity(index, |order|, p);
    }
  }

  /** In an order with dependencies first, whatever name an entry pads stands before the component. */
  lemma PaddedBefore(order: seq<Component>, i: nat, k: nat, name: string)
    requires DepsBefore(order) && i < |order| && k < |order[i].dependsOn|
    requires name != "" && Pads(order[i].dependsOn[k], name)
    ensures exists j :: 0 <= j < i && order[j].name == name
  {
    NeedsPadded(order[i], name);
  }

  /** A component registered before the one it needs. */
  function Late(): seq<Component> {
    [Component("a", ["b"]), Component("b", [])]
  }

  lemma LateEdges()
    ensures UniqueNames(Late()) && Late()[0].name in ByName(Late())
    ensures "a" in ByName(Late()) && "b" in ByName(Late())
    ensures forall x, y :: Edge(ByName(Late()), x, y) <==> x == "a" && y == "b"
  {
    var c := Late();
    assert c[..1] == [c[0]] && c[..1][..0] == [];
    assert ByName(c) == map["a" := c[0], "b" := c[1]];
    assert Trimmed("b");
    TrimSpaceTrims("b");
    assert c[0].dependsOn[0] == "b";
  }

  lemma LateStep(p: seq<string>, i: nat)
    requires IsPath(ByName(Late()), p) && i + 1 < |p|
    ensures p[i] == "a" && p[i + 1] == "b"
  {
    LateEdges();
    assert Edge(ByName(Late()), p[i], p[i + 1]);
  }

  lemma LateIsAcyclic()
    ensures AllKnown(ByName(Late())) && Acyclic(ByName(Late()))
  {
    LateEdges();
    forall p ensures !ClosesCycle(ByName(Late()), p) {
      if ClosesCycle(ByName(Late()), p) {
        var n := |p| - 1;
        var i :| 0 <= i < n && p[..n][i] == p[n];
        var last: nat := n - 1;
        LateStep(p, last);
        LateStep(p, i);
      }
    }
  }

  lemma LateIsLate()
    ensures !DepsBefore(Late())
  {
    LateEdges();
    ByNameAt(Late(), 0);
    assert Edge(ByName(Late()), "a", "b");
    assert Needs(Late()[0], "b");
  }

  /** Such a registration can be started, but not in registration order. */
  lemma NotInRegistrationOrder(order: seq<Component>)
    requires multiset(order) == multiset(Late()) && DepsBefore(order)
    requires Stable(ByName(Late()), Late(), order, |Late()|)
    ensures AllKnown(ByName(Late())) && Acyclic(ByName(Late())) && order != Late()
  {
    LateIsAcyclic();
    LateIsLate();
  }
}

/** The order in which a rollout visits its groups: dependencies before dependents, by depth-first search. */
module FleetOrder {
  import opened Options
  import opened StringOrder

  datatype Group = Group(name: string, dependsOn: seq<string>)

  /** Each group's dependencies, by name. */
  type Graph = map<string, seq<string>>

  function Deps(g: Graph, n: string): seq<string> { if n in g then g[n] else [] }

  /** The groups by name; of two with one name the later counts. */
  function GraphOf(groups: seq<Group>): Graph {
    if groups == [] then map[]
    else GraphOf(groups[..|groups| - 1])[groups[|groups| - 1].name := groups[|groups| - 1].dependsOn]
  }

  /** Every dependency names a group. */
  ghost predicate Closed(g: Graph) { forall n, i | n in g && 0 <= i < |g[n]| :: g[n][i] in g }

  /** Each name depends directly on the next. */
  ghost predicate Path(g: Graph, p: seq<string>) {
    |p| >= 2 && forall i | 0 <= i < |p| - 1 :: p[i + 1] in Deps(g, p[i])
  }

  ghost predicate Acyclic(g: Graph) { forall p | Path(g, p) :: p[0] != p[|p| - 1] }

  ghost predicate Reaches(g: Graph, x: string, y: string) {
    exists p :: Path(g, p) && p[0] == x && p[|p| - 1] == y
  }

  // ---------- what an order must be ----------

  /** The dependencies of the name at position i all come before it. */
  ghost predicate After(g: Graph, out: seq<string>, i: nat)
    requires i < |out|
  {
    forall k | 0 <= k < |Deps(g, out[i])| :: Deps(g, out[i])[k] in out[..i]
  }

  ghost predicate Ordered(g: Graph, out: seq<string>) {
    NoRepeats(out) && forall i | 0 <= i < |out| :: After(g, out, i)
  }

  lemma OrderedGrows(g: Graph, out: seq<string>, n: string)
    requires Ordered(g, out) && n !in out && forall k | 0 <= k < |Deps(g, n)| :: Deps(g, n)[k] in out
    ensures Ordered(g, out + [n])
  {
    var more := out + [n];
    forall i | 0 <= i < |more|
      ensures After(g, more, i)
    {
      assert more[..i] == out[..i];
      if i < |out| {
        assert After(g, out, i);
      } else {
        assert out[..i] == out;
      }
    }
  }

  /** Along a path through an ordered list positions go down, so no path returns to its start. */
  lemma {:induction false} PathGoesDown(g: Graph, out: seq<string>, p: seq<string>, i: nat)
    requires Ordered(g, out) && Path(g, p) && i < |out| && p[0] == out[i]
    ensures exists j :: 0 <= j < i && out[j] == p[|p| - 1]
    decreases |p|
  {
    assert After(g, out, i);
    assert p[1] in Deps(g, p[0]);
    var k :| 0 <= k < |Deps(g, p[0])| && Deps(g, p[0])[k] == p[1];
    var j :| 0 <= j < i && out[..i][j] == p[1];
    if |p| > 2 {
      var rest := p[1..];
      forall m | 0 <= m < |rest| - 1
        ensures rest[m + 1] in Deps(g, rest[m])
      {
        assert p[m + 2] in Deps(g, p[m + 1]);
      }
      PathGoesDown(g, out, rest, j);
    }
  }

  lemma OrderedMeansAcyclic(g: Graph, out: seq<string>)
    requires Ordered(g, out) && forall n | n in g :: n in out
    ensures Acyclic(g)
  {
    forall p | Path(g, p)
      ensures p[0] != p[|p| - 1]
    {
      assert p[1] in Deps(g, p[0]);
      var i :| 0 <= i < |out| && out[i] == p[0];
      PathGoesDown(g, out, p, i);
    }
  }

  lemma PathStep(g: Graph, x: string, n: string, d: string)
    requires (x == n || Reaches(g, x, n)) && d in Deps(g, n)
    ensures Reaches(g, x, d)
  {
    if x == n {
      assert Path(g, [n, d]);
    } else {
      var p :| Path(g, p) && p[0] == x && p[|p| - 1] == n;
      var q := p + [d];
      forall i | 0 <= i < |q| - 1
        ensures q[i + 1] in Deps(g, q[i])
      {
        assert i < |p| - 1 ==> p[i + 1] in Deps(g, p[i]);
      }
      assert Path(g, q) && q[0] == x && q[|q| - 1] == d;
    }
  }

  // ---------- the search ----------

  datatype State = State(seen: set<string>, out: seq<string>)

  ghost predicate Within(g: Graph, u: set<string>) { forall n, i | n in u && 0 <= i < |Deps(g, n)| :: Deps(g, n)[i] in u }

  ghost function Visit(g: Graph, u: set<string>, n: string, s: State): (r: State)
    requires Within(g, u) && n in u
    ensures s.seen <= r.seen
    decreases u - s.seen, 0
  {
    if n in s.seen then s
    else
      var r := VisitDeps(g, u, n, 0, State(s.seen + {n}, s.out));
      State(r.seen, r.out + [n])
  }

  ghost function VisitDeps(g: Graph, u: set<string>, n: string, i: nat, s: State): (r: State)
    requires Within(g, u) && n in u && i <= |Deps(g, n)|
    ensures s.seen <= r.seen
    decreases u - s.seen, 1 + |Deps(g, n)| - i
  {
    if i == |Deps(g, n)| then s
    else
      var t := Visit(g, u, Deps(g, n)[i], s);
      assert u - t.seen <= u - s.seen;
      VisitDeps(g, u, n, i + 1, t)
  }

  ghost function VisitNames(g: Graph, u: set<string>, names: seq<string>, i: nat, s: State): State
    requires Within(g, u) && i <= |names| && forall k | 0 <= k < |names| :: names[k] in u
    decreases |names| - i
  {
    if i == |names| then s else VisitNames(g, u, names, i + 1, Visit(g, u, names[i], s))
  }

  function Universe(g: Graph): set<string> { g.Keys + set n, i | n in g.Keys && 0 <= i < |g[n]| :: g[n][i] }

  lemma UniverseWithin(g: Graph)
    ensures Within(g, Universe(g))
  {}

  /** The order the search produces for a graph. */
  ghost function Order(g: Graph): seq<string> {
    UniverseWithin(g);
    var names := Sorted(g.Keys);
    assert forall k | 0 <= k < |names| :: names[k] in Members(names);
    VisitNames(g, Universe(g), names, 0, State({}, [])).out
  }

  /** Names on the way: visited, not yet listed. */
  ghost function Open(s: State): set<string> { s.seen - Members(s.out) }

  ghost predicate Good(g: Graph, s: State) { Ordered(g, s.out) && Members(s.out) <= s.seen }

  /** Everything newly visited was listed, and nothing listed before moved. */
  ghost predicate Extends(s: State, r: State) {
    s.seen <= r.seen && s.out <= r.out && Open(r) == Open(s)
  }

  lemma {:induction false} VisitGood(g: Graph, u: set<string>, n: string, s: State)
    requires Within(g, u) && n in u && Acyclic(g) && Good(g, s) && s.seen <= u
    requires forall x | x in Open(s) :: Reaches(g, x, n)
    ensures var r := Visit(g, u, n, s); Good(g, r) && Extends(s, r) && n in r.out && r.seen <= u
    decreases u - s.seen, 0
  {
    hide Acyclic;
    if n in s.seen {
      NotOpen(g, n, s);
    } else {
      var t := State(s.seen + {n}, s.out);
      assert n !in s.out by {
        assert n !in Members(s.out);
      }
      assert Open(t) == Open(s) + {n};
      VisitDepsGood(g, u, n, 0, t);
      var r := VisitDeps(g, u, n, 0, t);
      assert n in Open(r);
      OrderedGrows(g, r.out, n);
      assert Members(r.out + [n]) == Members(r.out) + {n};
      assert Open(State(r.seen, r.out + [n])) == Open(s);
    }
  }

  lemma NotOpen(g: Graph, n: string, s: State)
    requires Acyclic(g) && n in s.seen && forall x | x in Open(s) :: Reaches(g, x, n)
    ensures n in s.out
  {
    if n in Open(s) {
    }
  }

  lemma {:induction false} VisitDepsGood(g: Graph, u: set<string>, n: string, i: nat, s: State)
    requires Within(g, u) && n in u && Acyclic(g) && Good(g, s) && s.seen <= u && i <= |Deps(g, n)|
    requires n in s.seen && forall x | x in Open(s) :: x == n || Reaches(g, x, n)
    requires forall k | 0 <= k < i :: Deps(g, n)[k] in s.out
    ensures var r := VisitDeps(g, u, n, i, s);
            && Good(g, r) && Extends(s, r) && r.seen <= u
            && forall k | 0 <= k < |Deps(g, n)| :: Deps(g, n)[k] in r.out
    decreases u - s.seen, 1 + |Deps(g, n)| - i
  {
    hide Acyclic, Reaches, Good;
    if i < |Deps(g, n)| {
      var d := Deps(g, n)[i];
      forall x | x in Open(s)
        ensures Reaches(g, x, d)
      {
        PathStep(g, x, n, d);
      }
      VisitGood(g, u, d, s);
      var t := Visit(g, u, d, s);
      assert u - t.seen <= u - s.seen;
      assert forall k | 0 <= k < i :: Deps(g, n)[k] in t.out;
      VisitDepsGood(g, u, n, i + 1, t);
    }
  }

  lemma {:induction false} VisitNamesGood(g: Graph, u: set<string>, names: seq<string>, i: nat, s: State)
    requires Within(g, u) && i <= |names| && (forall k | 0 <= k < |names| :: names[k] in u)
    requires Acyclic(g) && Good(g, s) && s.seen <= u && Open(s) == {} && forall k | 0 <= k < i :: names[k] in s.out
    ensures var r := VisitNames(g, u, names, i, s);
            Good(g, r) && Open(r) == {} && r.seen <= u && forall k | 0 <= k < |names| :: names[k] in r.out
    decreases |names| - i
  {
    hide Acyclic, Good;
    if i < |names| {
      VisitGood(g, u, names[i], s);
      VisitNamesGood(g, u, names, i + 1, Visit(g, u, names[i], s));
    }
  }

  /** For every closed acyclic graph the order holds each group exactly once, after all it depends on. */
  lemma OrderIsTopological(g: Graph)
    requires Closed(g) && Acyclic(g)
    ensures Ordered(g, Order(g)) && Members(Order(g)) == g.Keys
  {
    hide Acyclic;
    UniverseWithin(g);
    var names := Sorted(g.Keys);
    assert forall k | 0 <= k < |names| :: names[k] in Members(names);
    var s := State({}, []);
    assert Open(s) == {};
    VisitNamesGood(g, Universe(g), names, 0, s);
    var r := VisitNames(g, Universe(g), names, 0, s);
    assert Universe(g) == g.Keys;
    forall n | n in g.Keys
      ensures n in Members(r.out)
    {
      assert n in Members(names);
    }
  }

  ghost predicate UniqueNames(groups: seq<Group>) {
    forall i, j | 0 <= i < j < |groups| :: groups[i].name != groups[j].name
  }

  lemma {:induction false} GraphHolds(groups: seq<Group>)
    requires UniqueNames(groups)
    ensures forall n, deps :: n in GraphOf(groups) && GraphOf(groups)[n] == deps <==> Group(n, deps) in groups
  {
    if groups != [] {
      var last := |groups| - 1;
      GraphHolds(groups[..last]);
      assert groups == groups[..last] + [groups[last]];
      forall x | x in groups[..last]
        ensures x.name != groups[last].name
      {
        var i :| 0 <= i < last && groups[..last][i] == x;
        assert groups[i].name != groups[last].name;
      }
    }
  }

  /** Listing the same groups in another order changes nothing. */
  lemma OrderIgnoresListing(a: seq<Group>, b: seq<Group>)
    requires UniqueNames(a) && UniqueNames(b) && multiset(a) == multiset(b)
    ensures Order(GraphOf(a)) == Order(GraphOf(b))
  {
    GraphHolds(a);
    GraphHolds(b);
    forall x
      ensures x in a <==> x in b
    {
      assert x in multiset(a) <==> x in multiset(b);
    }
    forall n | n in GraphOf(a)
      ensures n in GraphOf(b) && GraphOf(b)[n] == GraphOf(a)[n]
    {
      assert Group(n, GraphOf(a)[n]) in a;
    }
    forall n | n in GraphOf(b)
      ensures n in GraphOf(a)
    {
      assert Group(n, GraphOf(b)[n]) in b;
    }
    assert GraphOf(a) == GraphOf(b);
  }

  // ---------- the code ----------

  class Visitor {
    const groups: Graph
    var seen: set<string>
    var out: seq<string>

    constructor (groups: Graph)
      ensures this.groups == groups && seen == {} && out == []
    {
      this.groups := groups;
      seen, out := {}, [];
    }

    method VisitGroup(n: string, ghost u: set<string>)
      requires Within(groups, u) && n in u
      modifies this
      ensures State(seen, out) == Visit(groups, u, n, old(State(seen, out)))
      decreases u - seen
    {
      if n in seen {
        return;
      }
      seen := seen + {n};
      ghost var start := State(seen, out);
      var deps := Deps(groups, n);
      for i := 0 to |deps|
        invariant old(seen) + {n} <= seen
        invariant VisitDeps(groups, u, n, 0, start) == VisitDeps(groups, u, n, i, State(seen, out))
      {
        VisitGroup(deps[i], u);
      }
      out := out + [n];
    }
  }

  /** The names of a rollout's groups in execution order. */
  method GroupNames(groups: seq<Group>) returns (out: seq<string>)
    ensures out == Order(GraphOf(groups))
  {
    var g: Graph := map[];
    for i := 0 to |groups|
      invariant g == GraphOf(groups[..i])
    {
      assert groups[..i + 1][..i] == groups[..i];
      g := g[groups[i].name := groups[i].dependsOn];
    }
    assert groups[..|groups|] == groups;
    var names := SortStrings(g.Keys);
    var v := new Visitor(g);
    ghost var u := Universe(g);
    UniverseWithin(g);
    assert forall k | 0 <= k < |names| :: names[k] in Members(names);
    for i := 0 to |names|
      invariant VisitNames(g, u, names, i, State(v.seen, v.out)) == VisitNames(g, u, names, 0, State({}, []))
    {
      v.VisitGroup(names[i], u);
    }
    out := v.out;
  }

  // ---------- the check that a rollout's dependencies can be ordered ----------

  datatype Color = Visiting | Visited

  /** Visited names are listed after what they depend on; a name being visited reaches the next one looked at. */
  ghost predicate Coloring(g: Graph, colors: map<string, Color>, order: seq<string>) {
    && Ordered(g, order)
    && (forall n :: n in order <==> n in colors && colors[n].Visited?)
    && colors.Keys <= g.Keys
  }

  class Checker {
    const groups: Graph
    var colors: map<string, Color>
    ghost var order: seq<string>

    constructor (groups: Graph)
      ensures this.groups == groups && colors == map[] && order == []
    {
      this.groups := groups;
      colors, order := map[], [];
    }

    /** Succeeds exactly when everything below this name can be ordered; a failure shows a cycle or an unknown name. */
    method Check(n: string) returns (ok: bool)
      requires Coloring(groups, colors, order)
      requires forall x | x in colors && colors[x].Visiting? :: Reaches(groups, x, n)
      modifies this
      ensures ok ==> Coloring(groups, colors, order) && n in order
      ensures ok ==> forall x :: x in colors && colors[x].Visiting? <==> x in old(colors) && old(colors)[x].Visiting?
      ensures ok ==> forall x | x in old(order) :: x in order
      ensures !ok ==> !Acyclic(groups) || n !in groups || !Closed(groups)
      decreases groups.Keys - colors.Keys
    {
      hide Acyclic, Reaches, Closed, Ordered;
      if n in colors && colors[n].Visiting? {
        ReachesItself(groups, n);
        return false;
      }
      if n in colors {
        return true;
      }
      if n !in groups {
        return false;
      }
      colors := colors[n := Visiting];
      ghost var start := colors;
      var deps := groups[n];
      for i := 0 to |deps|
        invariant Coloring(groups, colors, order)
        invariant forall x :: x in colors && colors[x].Visiting? <==> x in start && start[x].Visiting?
        invariant forall x | x in old(order) :: x in order
        invariant forall k | 0 <= k < i :: deps[k] in order
        invariant start.Keys <= colors.Keys
      {
        forall x | x in colors && colors[x].Visiting?
          ensures Reaches(groups, x, deps[i])
        {
          PathStep(groups, x, n, deps[i]);
        }
        ghost var before, listed := colors, order;
        ok := Check(deps[i]);
        if !ok {
          DepUnknown(groups, n, i);
          return;
        }
        KeepsColors(groups, before, listed, colors, order);
      }
      assert n !in order;
      OrderedGrows(groups, order, n);
      order := order + [n];
      colors := colors[n := Visited];
      ok := true;
    }
  }

  lemma ReachesItself(g: Graph, n: string)
    requires Reaches(g, n, n)
    ensures !Acyclic(g)
  {}

  lemma DepUnknown(g: Graph, n: string, i: nat)
    requires n in g && i < |g[n]|
    ensures g[n][i] !in g ==> !Closed(g)
  {}

  lemma KeepsColors(g: Graph, before: map<string, Color>, listed: seq<string>, colors: map<string, Color>, order: seq<string>)
    requires Coloring(g, before, listed) && Coloring(g, colors, order)
    requires forall x :: x in colors && colors[x].Visiting? <==> x in before && before[x].Visiting?
    requires forall x | x in listed :: x in order
    ensures before.Keys <= colors.Keys
  {
    forall x | x in before
      ensures x in colors
    {
      if before[x].Visited? {
        assert x in listed;
      }
    }
  }

  /** Accepts exactly the closed acyclic graphs. */
  method ValidateDependencies(g: Graph) returns (ok: bool)
    ensures ok <==> Closed(g) && Acyclic(g)
  {
    hide Acyclic, Reaches, Ordered, Closed;
    var c := new Checker(g);
    var names := SortStrings(g.Keys);
    assert forall k | 0 <= k < |names| :: names[k] in Members(names);
    EmptyOrder(g);
    for i := 0 to |names|
      invariant Coloring(g, c.colors, c.order)
      invariant forall x | x in c.colors :: c.colors[x].Visited?
      invariant forall k | 0 <= k < i :: names[k] in c.order
    {
      ok := c.Check(names[i]);
      if !ok {
        return;
      }
    }
    forall n | n in g
      ensures n in c.order
    {
      assert n in Members(names);
    }
    AllListed(g, c.colors, c.order);
    ok := true;
  }

  lemma EmptyOrder(g: Graph)
    ensures Ordered(g, [])
  {}

  lemma AllListed(g: Graph, colors: map<string, Color>, order: seq<string>)
    requires Coloring(g, colors, order) && forall n | n in g :: n in order
    ensures Closed(g) && Acyclic(g)
  {
    OrderedMeansAcyclic(g, order);
    forall n, i | n in g && 0 <= i < |g[n]|
      ensures g[n][i] in g
    {
      var k :| 0 <= k < |order| && order[k] == n;
      assert After(g, order, k);
      assert Deps(g, n)[i] in order[..k];
    }
  }
}

/** Three programs that close an SDK package over its family's dependencies: the memoised depth-first search of
    project-sdk.py (zstd), the all-paths recursion of test-sdk-closures.py (LLVM) and the cycle-tolerant search of
    test-sdk-closure.py (zlib-ng). */
module SdkClosure {
  import opened Prelude

  datatype Dep = Dep(name: string, constraint: string)

  /** The manifests beside the recipe: each family package's dependencies, in the manifest's order. */
  type Manifests = map<string, seq<Dep>>

  const EXACT := "= {{release}}"

  datatype ClosureError = UnknownPackage | Cycle | Inexact | MissingManifest

  // ---- The dependency graph ----

  predicate Edge(g: Manifests, a: string, b: string) {
    a in g && b in g && exists i :: 0 <= i < |g[a]| && g[a][i].name == b
  }

  ghost predicate Path(g: Manifests, p: seq<string>) {
    p != [] && p[0] in g && forall i :: 0 <= i < |p| - 1 ==> Edge(g, p[i], p[i + 1])
  }

  ghost predicate Leads(g: Manifests, a: string, b: string, p: seq<string>) {
    Path(g, p) && p[0] == a && p[|p| - 1] == b
  }

  ghost predicate Reaches(g: Manifests, a: string, b: string) {
    exists p :: Leads(g, a, b, p)
  }

  /** Everything the package needs from its family, itself included. */
  ghost function Reach(g: Manifests, a: string): set<string> {
    set b | b in g && Reaches(g, a, b)
  }

  ghost predicate Repeats(p: seq<string>) {
    exists i, j :: 0 <= i < j < |p| && p[i] == p[j]
  }

  /** Some dependency chain from the package meets itself again. */
  ghost predicate Cyclic(g: Manifests, a: string) {
    exists p :: Path(g, p) && p[0] == a && Repeats(p)
  }

  predicate Closed(g: Manifests, s: set<string>) {
    forall a, b | a in s && b in g && Edge(g, a, b) :: b in s
  }

  /** The packages of other families that the set depends on. */
  function Outside(g: Manifests, s: set<string>): set<string> {
    set a, i | a in s && a in g && 0 <= i < |g[a]| && g[a][i].name !in g :: g[a][i].name
  }

  /** Every family dependency the package reaches selects the exact release. */
  ghost predicate ExactWithin(g: Manifests, a: string) {
    forall b, i :: b in Reach(g, a) && 0 <= i < |g[b]| && g[b][i].name in g ==> g[b][i].constraint == EXACT
  }

  /** No dependency the package reaches names the family without having a manifest. */
  ghost predicate Complete(g: Manifests, family: string, a: string) {
    forall b, i :: b in Reach(g, a) && 0 <= i < |g[b]| && family <= g[b][i].name ==> g[b][i].name in g
  }

  lemma {:induction false} ReachesSelf(g: Manifests, a: string)
    requires a in g
    ensures a in Reach(g, a)
  {
    assert Leads(g, a, a, [a]);
  }

  lemma {:induction false} ReachesNext(g: Manifests, a: string, b: string, c: string)
    requires Reaches(g, a, b) && Edge(g, b, c)
    ensures Reaches(g, a, c)
  {
    var p :| Leads(g, a, b, p);
    assert Leads(g, a, c, p + [c]);
  }

  lemma {:induction false} StaysClosed(g: Manifests, s: set<string>, p: seq<string>)
    requires Closed(g, s) && Path(g, p) && p[0] in s
    ensures p[|p| - 1] in s
    decreases |p|
  {
    if |p| > 1 {
      assert Edge(g, p[0], p[1]);
      var q := p[1..];
      forall i | 0 <= i < |q| - 1 ensures Edge(g, q[i], q[i + 1]) {
        assert Edge(g, p[i + 1], p[i + 2]);
      }
      StaysClosed(g, s, q);
    }
  }

  /** Reach is the least dependency-closed set that holds the package. */
  lemma {:induction false} ReachIsLeast(g: Manifests, a: string)
    requires a in g
    ensures a in Reach(g, a) && Closed(g, Reach(g, a))
    ensures forall s :: Closed(g, s) && a in s ==> Reach(g, a) <= s
  {
    ReachesSelf(g, a);
    forall b, c | b in Reach(g, a) && c in g && Edge(g, b, c) ensures c in Reach(g, a) {
      ReachesNext(g, a, b, c);
    }
    forall s, b | Closed(g, s) && a in s && b in Reach(g, a) ensures b in s {
      var p :| Leads(g, a, b, p);
      StaysClosed(g, s, p);
    }
  }

  lemma {:induction false} OutsideGrows(g: Manifests, s: set<string>, t: set<string>)
    requires s <= t
    ensures Outside(g, s) <= Outside(g, t)
  {
  }

  // ---- The memoised search with its stack (zstd) ----

  function Elems(s: seq<string>): set<string> { set x | x in s }

  /** The dependency is settled: exact and finished, or another family's and recorded. */
  predicate Settled(g: Manifests, d: Dep, external: set<string>, finished: set<string>) {
    if d.name in g then d.constraint == EXACT && d.name in finished else d.name in external
  }

  predicate SettledTo(g: Manifests, a: string, n: nat, external: set<string>, finished: set<string>) {
    a in g && n <= |g[a]| && forall i :: 0 <= i < n ==> Settled(g, g[a][i], external, finished)
  }

  lemma {:induction false} StaysSettled(g: Manifests, a: string, n: nat, external: set<string>, finished: set<string>,
      external': set<string>, finished': set<string>)
    requires SettledTo(g, a, n, external, finished) && external <= external' && finished <= finished'
    ensures SettledTo(g, a, n, external', finished')
  {
    forall i | 0 <= i < n ensures Settled(g, g[a][i], external', finished') {
      assert Settled(g, g[a][i], external, finished);
    }
  }

  /** Every dependency of a finished package finished before it. */
  ghost predicate Finished(g: Manifests, external: set<string>, rank: map<string, nat>, a: string)
    requires a in g && a in rank
  {
    forall i :: 0 <= i < |g[a]| ==>
      Settled(g, g[a][i], external, rank.Keys) && (g[a][i].name in g ==> rank[g[a][i].name] < rank[a])
  }

  /** What holds whenever visit is called or returns: the stack is a chain from the root, everything else selected is
      finished, and `rank` orders the finished packages by when they finished. */
  ghost predicate Searching(g: Manifests, root: string, selected: set<string>, external: set<string>,
      rank: map<string, nat>, stack: seq<string>)
  {
    root in g &&
    (stack != [] ==> Path(g, stack) && stack[0] == root) &&
    selected == rank.Keys + Elems(stack) && rank.Keys !! Elems(stack) &&
    (forall a :: a in selected ==> a in g && Reaches(g, root, a)) &&
    external <= Outside(g, selected) &&
    (forall a :: a in rank ==> rank[a] < |rank|) &&
    forall a :: a in rank ==> Finished(g, external, rank, a)
  }

  lemma {:induction false} Extends(g: Manifests, root: string, stack: seq<string>, name: string)
    requires root in g && (stack != [] ==> Path(g, stack) && stack[0] == root) && name in g
    requires if stack == [] then name == root else Edge(g, stack[|stack| - 1], name)
    ensures Path(g, stack + [name]) && (stack + [name])[0] == root && Reaches(g, root, name)
    ensures name in stack ==> Cyclic(g, root)
  {
    var p := stack + [name];
    forall i | 0 <= i < |p| - 1 ensures Edge(g, p[i], p[i + 1]) {
      if i < |stack| - 1 { assert Edge(g, stack[i], stack[i + 1]); }
    }
    assert Leads(g, root, name, p);
    if name in stack {
      var i :| 0 <= i < |stack| && stack[i] == name;
      assert p[i] == p[|stack|];
    }
  }

  lemma {:induction false} Enters(g: Manifests, root: string, selected: set<string>, external: set<string>,
      rank: map<string, nat>, stack: seq<string>, name: string)
    requires Searching(g, root, selected, external, rank, stack) && name !in selected
    requires name in g && Path(g, stack + [name]) && (stack + [name])[0] == root && Reaches(g, root, name)
    ensures Searching(g, root, selected + {name}, external, rank, stack + [name])
  {
    hide Path, Finished, Reaches, Outside, Elems;
    OutsideGrows(g, selected, selected + {name});
    ElemsSnoc(stack, name);
  }

  lemma {:induction false} Records(g: Manifests, root: string, selected: set<string>, external: set<string>,
      rank: map<string, nat>, stack: seq<string>, name: string, i: nat)
    requires Searching(g, root, selected, external, rank, stack)
    requires name in selected && name in g && i < |g[name]| && g[name][i].name !in g
    ensures Searching(g, root, selected, external + {g[name][i].name}, rank, stack)
  {
    hide Path, Reaches;
  }

  lemma {:induction false} Leaves(g: Manifests, root: string, selected: set<string>, external: set<string>,
      rank: map<string, nat>, stack: seq<string>, name: string)
    requires Searching(g, root, selected, external, rank, stack + [name]) && name !in stack && name in g
    requires SettledTo(g, name, |g[name]|, external, rank.Keys)
    ensures Searching(g, root, selected, external, rank[name := |rank|], stack)
  {
    hide Reaches, Outside, Path, Elems, Finished;
    if stack != [] { PathPrefix(g, stack, name); }
    RanksNext(selected, rank, stack, name, rank[name := |rank|]);
    FinishesMore(g, external, rank, name, rank[name := |rank|]);
  }

  lemma {:induction false} RanksNext(selected: set<string>, rank: map<string, nat>, stack: seq<string>, name: string,
      rank': map<string, nat>)
    requires selected == rank.Keys + Elems(stack + [name]) && rank.Keys !! Elems(stack + [name]) && name !in stack
    requires rank' == rank[name := |rank|] && forall a :: a in rank ==> rank[a] < |rank|
    ensures selected == rank'.Keys + Elems(stack) && rank'.Keys !! Elems(stack)
    ensures forall a :: a in rank' ==> rank'[a] < |rank'|
  {
    hide Elems;
    ElemsSnoc(stack, name);
    assert rank'.Keys == rank.Keys + {name} && |rank'| == |rank| + 1;
  }

  lemma {:induction false} ElemsSnoc(stack: seq<string>, name: string)
    ensures Elems(stack + [name]) == Elems(stack) + {name} && (name in Elems(stack) <==> name in stack)
  {
    assert forall x :: x in stack + [name] <==> x in stack || x == name;
  }

  lemma {:induction false} PathPrefix(g: Manifests, stack: seq<string>, name: string)
    requires Path(g, stack + [name]) && stack != []
    ensures Path(g, stack) && stack[0] == (stack + [name])[0]
  {
    forall i | 0 <= i < |stack| - 1 ensures Edge(g, stack[i], stack[i + 1]) {
      assert Edge(g, (stack + [name])[i], (stack + [name])[i + 1]);
    }
  }

  lemma {:induction false} FinishesMore(g: Manifests, external: set<string>, rank: map<string, nat>, name: string,
      rank': map<string, nat>)
    requires name !in rank && name in g && SettledTo(g, name, |g[name]|, external, rank.Keys)
    requires forall a :: a in rank ==> a in g && rank[a] < |rank| && Finished(g, external, rank, a)
    requires rank' == rank[name := |rank|]
    ensures forall a :: a in rank' ==> Finished(g, external, rank', a)
  {
    forall a | a in rank' ensures Finished(g, external, rank', a) {
      forall i | 0 <= i < |g[a]|
        ensures Settled(g, g[a][i], external, rank'.Keys) && (g[a][i].name in g ==> rank'[g[a][i].name] < rank'[a])
      {
        assert Settled(g, g[a][i], external, rank.Keys);
      }
    }
  }

  /** What the search reads off its invariant. */
  lemma {:induction false} Known(g: Manifests, root: string, selected: set<string>, external: set<string>,
      rank: map<string, nat>, stack: seq<string>)
    requires Searching(g, root, selected, external, rank, stack)
    ensures root in g && (stack != [] ==> Path(g, stack) && stack[0] == root)
    ensures forall x :: x in selected ==> x in g && Reaches(g, root, x)
    ensures forall x :: x in selected && x !in stack ==> x in rank
    ensures forall x :: x in stack ==> x in selected
    ensures rank.Keys <= selected
  {
  }

  class Projection {
    const g: Manifests
    ghost const root: string
    var selected: set<string>
    var external: set<string>
    ghost var rank: map<string, nat>

    constructor (g: Manifests, ghost root: string)
      requires root in g
      ensures this.g == g && this.root == root && Valid([])
    {
      this.g, this.root, selected, external, rank := g, root, {}, {}, map[];
    }

    ghost predicate Valid(stack: seq<string>)
      reads this
    {
      Searching(g, root, selected, external, rank, stack)
    }

    method Visit(name: string, stack: seq<string>) returns (error: Option<ClosureError>)
      requires Valid(stack) && name in g
      requires if stack == [] then name == root else Edge(g, stack[|stack| - 1], name)
      modifies this
      ensures error.None? ==>
        Valid(stack) && name in rank &&
        old(selected) <= selected && old(external) <= external && old(rank.Keys) <= rank.Keys
      ensures error.Some? ==>
        (error.value == Cycle && Cyclic(g, root)) || (error.value == Inexact && !ExactWithin(g, root))
      decreases g.Keys - selected
    {
      hide Path, Reaches, Outside, Searching, Cyclic;
      Known(g, root, selected, external, rank, stack);
      Extends(g, root, stack, name);
      if name in stack {
        return Some(Cycle);
      }
      if name in selected {
        return None;
      }
      Enters(g, root, selected, external, rank, stack, name);
      selected := selected + {name};
      var i := 0;
      while i < |g[name]|
        invariant 0 <= i <= |g[name]| && Valid(stack + [name])
        invariant old(selected) + {name} <= selected && old(external) <= external && old(rank.Keys) <= rank.Keys
        invariant SettledTo(g, name, i, external, rank.Keys)
      {
        ghost var external0, finished0 := external, rank.Keys;
        var dep := g[name][i];
        if dep.name in g {
          if dep.constraint != EXACT {
            InexactAt(g, root, name, i);
            return Some(Inexact);
          }
          assert Edge(g, name, dep.name);
          error := Visit(dep.name, stack + [name]);
          if error.Some? { return; }
        } else {
          Records(g, root, selected, external, rank, stack + [name], name, i);
          external := external + {dep.name};
        }
        StaysSettled(g, name, i, external0, finished0, external, rank.Keys);
        i := i + 1;
      }
      Leaves(g, root, selected, external, rank, stack, name);
      rank := rank[name := |rank|];
      return None;
    }
  }

  lemma {:induction false} InexactAt(g: Manifests, root: string, a: string, i: nat)
    requires a in g && Reaches(g, root, a) && i < |g[a]| && g[a][i].name in g && g[a][i].constraint != EXACT
    ensures !ExactWithin(g, root)
  {
    assert a in Reach(g, root);
  }

  lemma {:induction false} Descends(g: Manifests, external: set<string>, rank: map<string, nat>, p: seq<string>, i: nat,
      j: nat)
    requires Path(g, p) && p[0] in rank && i < j < |p|
    requires forall a :: a in rank ==> a in g && Finished(g, external, rank, a)
    ensures p[i] in rank && p[j] in rank && rank[p[j]] < rank[p[i]]
    decreases j
  {
    if i > 0 && j == i + 1 { Descends(g, external, rank, p, i - 1, i); }
    if j > i + 1 { Descends(g, external, rank, p, i, j - 1); }
    assert Edge(g, p[j - 1], p[j]);
    var k :| 0 <= k < |g[p[j - 1]]| && g[p[j - 1]][k].name == p[j];
    assert Finished(g, external, rank, p[j - 1]);
  }

  /** When the search returns to the empty stack it has selected exactly what the root reaches, and no cycle and no
      inexact dependency is among it. */
  lemma {:induction false} SearchedAll(g: Manifests, root: string, selected: set<string>, external: set<string>,
      rank: map<string, nat>)
    requires Searching(g, root, selected, external, rank, []) && root in rank
    ensures selected == Reach(g, root) && external == Outside(g, Reach(g, root))
    ensures !Cyclic(g, root) && ExactWithin(g, root)
  {
    assert selected == rank.Keys;
    forall a, b | a in selected && b in g && Edge(g, a, b) ensures b in selected {
      var k :| 0 <= k < |g[a]| && g[a][k].name == b;
      assert Finished(g, external, rank, a);
    }
    ReachIsLeast(g, root);
    assert selected <= Reach(g, root);
    forall b, i | b in Reach(g, root) && 0 <= i < |g[b]|
      ensures g[b][i].name in g ==> g[b][i].constraint == EXACT
      ensures g[b][i].name !in g ==> g[b][i].name in external
    {
      assert Finished(g, external, rank, b);
      assert Settled(g, g[b][i], external, rank.Keys);
    }
    forall p | Path(g, p) && p[0] == root ensures !Repeats(p) {
      forall i, j | 0 <= i < j < |p| ensures p[i] != p[j] {
        Descends(g, external, rank, p, i, j);
      }
    }
  }

  datatype Projected = Projected(packages: set<string>, external: set<string>)

  /** project-sdk.py's search from the selected SDK. */
  method Project(g: Manifests, sdk: string) returns (r: Result<Projected, ClosureError>)
    ensures r.Ok? <==> sdk in g && !Cyclic(g, sdk) && ExactWithin(g, sdk)
    ensures r.Ok? ==> r.value == Projected(Reach(g, sdk), Outside(g, Reach(g, sdk)))
    ensures r == Err(UnknownPackage) <==> sdk !in g
    ensures sdk in g && ExactWithin(g, sdk) && Cyclic(g, sdk) ==> r == Err(Cycle)
    ensures sdk in g && !Cyclic(g, sdk) && !ExactWithin(g, sdk) ==> r == Err(Inexact)
  {
    hide Searching, Cyclic, ExactWithin, Reach, Outside;
    if sdk !in g { return Err(UnknownPackage); }
    var p := new Projection(g, sdk);
    var error := p.Visit(sdk, []);
    if error.Some? { return Err(error.value); }
    SearchedAll(g, sdk, p.selected, p.external, p.rank);
    return Ok(Projected(p.selected, p.external));
  }

  // ---- The all-paths recursion (LLVM) ----

  lemma {:induction false} ReachUnion(g: Manifests, a: string)
    requires a in g
    ensures forall b :: b in Reach(g, a) <==>
      b == a || exists i :: 0 <= i < |g[a]| && g[a][i].name in g && b in Reach(g, g[a][i].name)
  {
    ReachesSelf(g, a);
    forall b | b in Reach(g, a) && b != a
      ensures exists i :: 0 <= i < |g[a]| && g[a][i].name in g && b in Reach(g, g[a][i].name)
    {
      var p :| Leads(g, a, b, p);
      assert Edge(g, p[0], p[1]);
      var i :| 0 <= i < |g[a]| && g[a][i].name == p[1];
      PathTail(g, p);
      assert Leads(g, p[1], b, p[1..]);
    }
    forall b, i | 0 <= i < |g[a]| && g[a][i].name in g && b in Reach(g, g[a][i].name) ensures b in Reach(g, a) {
      var p :| Leads(g, g[a][i].name, b, p);
      assert Edge(g, a, p[0]);
      PathCons(g, a, p);
      assert Leads(g, a, b, [a] + p);
    }
  }

  lemma {:induction false} PathTail(g: Manifests, p: seq<string>)
    requires Path(g, p) && |p| > 1
    ensures Path(g, p[1..])
  {
    assert Edge(g, p[0], p[1]);
    forall i | 0 <= i < |p| - 2 ensures Edge(g, p[1..][i], p[1..][i + 1]) {
      assert Edge(g, p[i + 1], p[i + 2]);
    }
  }

  lemma {:induction false} PathCons(g: Manifests, a: string, p: seq<string>)
    requires Path(g, p) && Edge(g, a, p[0])
    ensures Path(g, [a] + p)
  {
    var q := [a] + p;
    forall i | 0 <= i < |q| - 1 ensures Edge(g, q[i], q[i + 1]) {
      if i > 0 { assert Edge(g, p[i - 1], p[i]); }
    }
  }

  /** Some chain from the package, after the packages being visited, meets one of them or itself. */
  ghost predicate Meets(g: Manifests, visiting: seq<string>, a: string) {
    exists p :: Path(g, p) && p[0] == a && Repeats(visiting + p)
  }

  lemma {:induction false} MeetsNext(g: Manifests, visiting: seq<string>, a: string)
    requires a in g && a !in visiting && !Repeats(visiting)
    ensures Meets(g, visiting, a) <==>
      exists i :: 0 <= i < |g[a]| && g[a][i].name in g && Meets(g, visiting + [a], g[a][i].name)
  {
    if p :| Path(g, p) && p[0] == a && Repeats(visiting + p) {
      StillDistinct(visiting, a);
      assert |p| == 1 ==> p == [a];
      assert Edge(g, p[0], p[1]);
      var i :| 0 <= i < |g[a]| && g[a][i].name == p[1];
      PathTail(g, p);
      assert visiting + p == (visiting + [a]) + p[1..];
      assert Meets(g, visiting + [a], p[1]);
    }
    if i :| 0 <= i < |g[a]| && g[a][i].name in g && Meets(g, visiting + [a], g[a][i].name) {
      var p :| Path(g, p) && p[0] == g[a][i].name && Repeats((visiting + [a]) + p);
      assert Edge(g, a, p[0]);
      PathCons(g, a, p);
      assert visiting + ([a] + p) == (visiting + [a]) + p;
      assert ([a] + p)[0] == a;
    }
  }

  method ClosureFrom(g: Manifests, name: string, visiting: seq<string>) returns (r: Result<set<string>, ClosureError>)
    requires name in g && !Repeats(visiting) && forall x :: x in visiting ==> x in g
    ensures r.Ok? <==> !Meets(g, visiting, name)
    ensures r.Ok? ==> r.value == Reach(g, name)
    ensures r.Err? ==> r.error == Cycle
    decreases g.Keys - Elems(visiting)
  {
    hide Path, Reach, Meets, Repeats;
    if name in visiting {
      MeetsAtOnce(g, visiting, name);
      return Err(Cycle);
    }
    MeetsNext(g, visiting, name);
    ReachUnion(g, name);
    StillDistinct(visiting, name);
    ElemsSnoc(visiting, name);
    var found := {name};
    var i := 0;
    while i < |g[name]|
      invariant 0 <= i <= |g[name]|
      invariant forall j :: 0 <= j < i && g[name][j].name in g ==> !Meets(g, visiting + [name], g[name][j].name)
      invariant forall b :: b in found <==>
        b == name || exists j :: 0 <= j < i && g[name][j].name in g && b in Reach(g, g[name][j].name)
    {
      var dependency := g[name][i].name;
      if dependency in g {
        var more := ClosureFrom(g, dependency, visiting + [name]);
        if more.Err? { return Err(Cycle); }
        found := found + more.value;
      }
      i := i + 1;
    }
    return Ok(found);
  }

  lemma {:induction false} MeetsAtOnce(g: Manifests, visiting: seq<string>, name: string)
    requires name in g && name in visiting
    ensures Meets(g, visiting, name)
  {
    var i :| 0 <= i < |visiting| && visiting[i] == name;
    assert (visiting + [name])[i] == (visiting + [name])[|visiting|];
    assert Path(g, [name]) && Repeats(visiting + [name]);
  }

  lemma {:induction false} StillDistinct(visiting: seq<string>, name: string)
    requires !Repeats(visiting) && name !in visiting
    ensures !Repeats(visiting + [name])
  {
    var p := visiting + [name];
    forall i, j | 0 <= i < j < |p| ensures p[i] != p[j] {
      if j < |visiting| { assert visiting[i] != visiting[j]; }
    }
  }

  /** test-sdk-closures.py's closure of one package. */
  method Closure(g: Manifests, name: string) returns (r: Result<set<string>, ClosureError>)
    ensures r.Ok? <==> name in g && !Cyclic(g, name)
    ensures r.Ok? ==> r.value == Reach(g, name)
    ensures r.Err? ==> r.error == if name in g then Cycle else UnknownPackage
  {
    if name !in g { return Err(UnknownPackage); }
    r := ClosureFrom(g, name, []);
    assert Meets(g, [], name) <==> Cyclic(g, name) by {
      assert forall p: seq<string> :: [] + p == p;
    }
  }

  // ---- The cycle-tolerant search (zlib-ng) ----

  /** A package is done when its dependencies are recorded and none is missing. */
  predicate Done(g: Manifests, family: string, members: set<string>, external: set<string>, a: string) {
    a in g && DoneTo(g, family, members, external, a, |g[a]|)
  }

  predicate DoneTo(g: Manifests, family: string, members: set<string>, external: set<string>, a: string, n: nat)
    requires a in g
  {
    n <= |g[a]| && forall i :: 0 <= i < n ==>
      var d := g[a][i].name; if d in g then d in members else !(family <= d) && d in external
  }

  /** The search has recorded only what the root reaches, and all members but those it is still visiting are done. */
  ghost predicate Gathering(g: Manifests, family: string, root: string, members: set<string>, external: set<string>,
      visiting: set<string>)
  {
    (forall a :: a in members ==> a in g && Reaches(g, root, a)) &&
    external <= Outside(g, members) &&
    forall a :: a in members && a !in visiting ==> Done(g, family, members, external, a)
  }

  class Gatherer {
    const g: Manifests
    const family: string
    ghost const root: string
    var members: set<string>
    var external: set<string>

    constructor (g: Manifests, family: string, ghost root: string)
      ensures this.g == g && this.family == family && this.root == root
      ensures Gathering(g, family, root, members, external, {}) && members == {}
    {
      this.g, this.family, this.root, members, external := g, family, root, {}, {};
    }

    method Visit(member: string, ghost visiting: set<string>) returns (error: Option<ClosureError>)
      requires Gathering(g, family, root, members, external, visiting) && member in g && Reaches(g, root, member)
      modifies this
      ensures error.None? ==>
        Gathering(g, family, root, members, external, visiting) && member in members &&
        old(members) <= members && old(external) <= external
      ensures error.Some? ==> error.value == MissingManifest && !Complete(g, family, root)
      decreases g.Keys - members
    {
      hide Reaches, Outside, Complete, Done;
      if member in members {
        return None;
      }
      Joins(g, family, root, members, external, visiting, member);
      members := members + {member};
      var i := 0;
      while i < |g[member]|
        invariant 0 <= i <= |g[member]|
        invariant old(members) + {member} <= members && old(external) <= external
        invariant Gathering(g, family, root, members, external, visiting + {member})
        invariant DoneTo(g, family, members, external, member, i)
      {
        var dep := g[member][i].name;
        if dep in g {
          assert Edge(g, member, dep);
          ReachesNext(g, root, member, dep);
          error := Visit(dep, visiting + {member});
          if error.Some? { return; }
        } else if family <= dep {
          MissingAt(g, family, root, member, i);
          return Some(MissingManifest);
        } else {
          Notes(g, family, root, members, external, visiting + {member}, member, i);
          external := external + {dep};
        }
        i := i + 1;
      }
      assert Done(g, family, members, external, member) by { IsDone(g, family, members, external, member); }
      return None;
    }
  }

  lemma {:induction false} IsDone(g: Manifests, family: string, members: set<string>, external: set<string>, a: string)
    requires a in g && DoneTo(g, family, members, external, a, |g[a]|)
    ensures Done(g, family, members, external, a)
  {
  }

  lemma {:induction false} Joins(g: Manifests, family: string, root: string, members: set<string>,
      external: set<string>, visiting: set<string>, member: string)
    requires Gathering(g, family, root, members, external, visiting) && member in g && Reaches(g, root, member)
    ensures Gathering(g, family, root, members + {member}, external, visiting + {member})
  {
    hide Reaches;
    OutsideGrows(g, members, members + {member});
  }

  lemma {:induction false} Notes(g: Manifests, family: string, root: string, members: set<string>,
      external: set<string>, visiting: set<string>, member: string, i: nat)
    requires Gathering(g, family, root, members, external, visiting)
    requires member in members && member in g && i < |g[member]| && g[member][i].name !in g
    ensures Gathering(g, family, root, members, external + {g[member][i].name}, visiting)
  {
    hide Reaches;
  }

  lemma {:induction false} MissingAt(g: Manifests, family: string, root: string, a: string, i: nat)
    requires a in g && Reaches(g, root, a) && i < |g[a]| && family <= g[a][i].name && g[a][i].name !in g
    ensures !Complete(g, family, root)
  {
    assert a in Reach(g, root);
  }

  lemma {:induction false} GatheredAll(g: Manifests, family: string, root: string, members: set<string>,
      external: set<string>)
    requires root in g && Gathering(g, family, root, members, external, {}) && root in members
    ensures members == Reach(g, root) && external == Outside(g, Reach(g, root)) && Complete(g, family, root)
  {
    forall a, b | a in members && b in g && Edge(g, a, b) ensures b in members {
      var k :| 0 <= k < |g[a]| && g[a][k].name == b;
      assert Done(g, family, members, external, a);
    }
    ReachIsLeast(g, root);
    assert members <= Reach(g, root);
    forall a, i | a in members && 0 <= i < |g[a]|
      ensures g[a][i].name !in g ==> g[a][i].name in external && !(family <= g[a][i].name)
    {
      assert Done(g, family, members, external, a);
    }
  }

  /** test-sdk-closure.py's closure: members and outside packages, cycles or not. */
  method Gather(g: Manifests, family: string, name: string) returns (r: Result<Projected, ClosureError>)
    ensures r.Ok? <==> name in g && Complete(g, family, name)
    ensures r.Ok? ==> r.value == Projected(Reach(g, name), Outside(g, Reach(g, name)))
    ensures r.Err? ==> r.error == if name in g then MissingManifest else UnknownPackage
  {
    if name !in g { return Err(UnknownPackage); }
    var s := new Gatherer(g, family, name);
    ReachesSelf(g, name);
    var error := s.Visit(name, {});
    if error.Some? { return Err(error.value); }
    GatheredAll(g, family, name, s.members, s.external);
    return Ok(Projected(s.members, s.external));
  }

  // ---- The three agree ----

  /** The memoised search succeeds exactly when the all-paths recursion does and every family dependency is exact; then
      both select the same packages, and the cycle-tolerant search agrees whenever the family's manifests are
      complete. */
  method Compare(g: Manifests, family: string, name: string)
    returns (memoised: Result<Projected, ClosureError>, plain: Result<set<string>, ClosureError>,
             tolerant: Result<Projected, ClosureError>)
    ensures memoised.Ok? <==> plain.Ok? && ExactWithin(g, name)
    ensures memoised.Ok? ==> memoised.value.packages == plain.value
    ensures plain.Ok? && tolerant.Ok? ==> tolerant.value.packages == plain.value
    ensures memoised.Ok? && tolerant.Ok? ==> memoised.value == tolerant.value
    ensures memoised.Ok? && Complete(g, family, name) ==> tolerant.Ok?
  {
    memoised := Project(g, name);
    plain := Closure(g, name);
    tolerant := Gather(g, family, name);
  }
}

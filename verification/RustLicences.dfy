/** Which crates a Rust build links, and the licence expression they come to (collect-rust-licences). */
module RustLicences {
  import opened Prelude
  import opened PyText
  import L = LicenceTerms

  // ---- The crates that are linked ----

  datatype Kind = Normal | Build | Development

  datatype Dep = Dep(pkg: string, kinds: set<Kind>)

  datatype Crate = Crate(id: string, name: string, version: string, source: Option<string>, license: string)

  /** packages and nodes of cargo metadata, by id. */
  type Crates = map<string, Crate>
  type Nodes = map<string, seq<Dep>>

  datatype Failure =
    | NoSuchRoot(names: set<string>) | UnknownCrate(id: string) | NoLicence(crate: Crate) | NoNotice(crate: Crate)

  predicate Linked(d: Dep) { Normal in d.kinds || Build in d.kinds }

  predicate LinksTo(d: Dep, b: string) { d.pkg == b && Linked(d) }

  predicate Needs(nodes: Nodes, a: string, b: string) {
    a in nodes && SomeLink(nodes[a], |nodes[a]|, b)
  }

  /** One of the first n dependencies is linked and names b. */
  predicate SomeLink(deps: seq<Dep>, n: nat, b: string) {
    n <= |deps| && exists i :: 0 <= i < n && LinksTo(deps[i], b)
  }

  ghost predicate Chain(nodes: Nodes, p: seq<string>) {
    p != [] && forall i :: 0 <= i < |p| - 1 ==> Needs(nodes, p[i], p[i + 1])
  }

  ghost predicate LeadsTo(nodes: Nodes, start: set<string>, p: seq<string>, b: string) {
    Chain(nodes, p) && p[0] in start && p[|p| - 1] == b
  }

  /** Some chain of normal and build dependencies leads from the start to the crate. */
  ghost predicate Reached(nodes: Nodes, start: set<string>, b: string) {
    exists p :: LeadsTo(nodes, start, p, b)
  }

  function Start(crates: Crates, roots: set<string>): set<string> {
    set i | i in crates && crates[i].source.None? && crates[i].name in roots
  }

  function NamesOf(crates: Crates, ids: set<string>): set<string> {
    set i | i in ids && i in crates :: crates[i].name
  }

  /** One of the built crates, when those are known. */
  predicate IsBuilt(c: Crate, built: Option<set<(string, string)>>) {
    built.None? || (c.name, c.version) in built.value
  }

  /** The sort's order; crates of the same name and version may stand either way. */
  predicate Before(a: Crate, b: Crate) {
    Precedes(a.name, b.name) || (a.name == b.name && (a.version == b.version || Precedes(a.version, b.version)))
  }

  predicate InOrder(cs: seq<Crate>) { forall i, j :: 0 <= i < j < |cs| ==> Before(cs[i], cs[j]) }

  lemma {:induction false} BeforeIsOrder(a: Crate, b: Crate, c: Crate)
    ensures Before(a, b) || Before(b, a)
    ensures Before(a, b) && Before(b, c) ==> Before(a, c)
  {
    hide Precedes;
    PrecedesIsOrder(a.name, b.name, c.name);
    PrecedesIsOrder(a.version, b.version, c.version);
  }

  function Insert(c: Crate, cs: seq<Crate>): seq<Crate> {
    if cs == [] || !Before(cs[0], c) then [c] + cs else [cs[0]] + Insert(c, cs[1..])
  }

  /** sorted(cs, key=...). */
  function SortCrates(cs: seq<Crate>): seq<Crate> {
    if cs == [] then [] else Insert(cs[|cs| - 1], SortCrates(cs[..|cs| - 1]))
  }

  lemma {:induction false} Inserted(c: Crate, cs: seq<Crate>)
    requires InOrder(cs)
    ensures InOrder(Insert(c, cs)) && multiset(Insert(c, cs)) == multiset(cs) + multiset{c}
    decreases |cs|
  {
    hide Before;
    if cs != [] {
      var rest := cs[1..];
      assert cs == [cs[0]] + rest;
      BeforeIsOrder(cs[0], c, c);
      if Before(cs[0], c) {
        Inserted(c, rest);
        var more := Insert(c, rest);
        forall x | x in more ensures Before(cs[0], x) {
          assert x in multiset(more);
          if x != c { assert x in rest; var k :| 0 <= k < |rest| && rest[k] == x; assert cs[k + 1] == x; }
        }
        InOrderMore(cs[0], more);
      } else {
        forall x | x in cs ensures Before(c, x) {
          var k :| 0 <= k < |cs| && cs[k] == x;
          BeforeIsOrder(c, cs[0], x);
        }
        InOrderMore(c, cs);
      }
    }
  }

  lemma {:induction false} InOrderMore(c: Crate, cs: seq<Crate>)
    requires InOrder(cs) && forall x :: x in cs ==> Before(c, x)
    ensures InOrder([c] + cs)
  {
    hide Before;
    var s := [c] + cs;
    assert forall j :: 0 < j < |s| ==> s[j] == cs[j - 1] && s[j] in cs;
  }

  lemma {:induction false} SortedCrates(cs: seq<Crate>)
    ensures InOrder(SortCrates(cs)) && multiset(SortCrates(cs)) == multiset(cs)
    decreases |cs|
  {
    hide Before, Insert;
    if cs != [] {
      var k := |cs| - 1;
      SortedCrates(cs[..k]);
      Inserted(cs[k], SortCrates(cs[..k]));
      assert cs == cs[..k] + [cs[k]];
    }
  }

  lemma {:induction false} StartIsReached(nodes: Nodes, start: set<string>, a: string)
    requires a in start
    ensures Reached(nodes, start, a)
  {
    assert LeadsTo(nodes, start, [a], a);
  }

  lemma {:induction false} NextIsReached(nodes: Nodes, start: set<string>, a: string, b: string)
    requires Reached(nodes, start, a) && Needs(nodes, a, b)
    ensures Reached(nodes, start, b)
  {
    var p :| LeadsTo(nodes, start, p, a);
    assert LeadsTo(nodes, start, p + [b], b);
  }

  /** What holds the start and is closed under dependencies holds everything reached. */
  lemma {:induction false} ReachedIsLeast(nodes: Nodes, start: set<string>, s: set<string>, b: string)
    requires start <= s && (forall x, y :: x in s && Needs(nodes, x, y) ==> y in s) && Reached(nodes, start, b)
    ensures b in s
  {
    var p :| LeadsTo(nodes, start, p, b);
    for i := 0 to |p| - 1
      invariant p[i] in s
    {
      assert Needs(nodes, p[i], p[i + 1]);
    }
  }

  /** What reachable returns: the reached crates that are built, each once and in order; or why it cannot. */
  ghost predicate IsReachable(crates: Crates, nodes: Nodes, roots: set<string>, built: Option<set<(string, string)>>,
      cs: seq<Crate>) {
    var start := Start(crates, roots);
    roots <= NamesOf(crates, start) &&
    (forall b :: Reached(nodes, start, b) ==> b in nodes && b in crates) && InOrder(cs) &&
    (forall c :: c in cs ==> multiset(cs)[c] == 1) &&
    forall c :: c in cs <==> Reached(nodes, start, c.id) && c.id in crates && crates[c.id] == c && IsBuilt(c, built)
  }

  /** list(s), in no particular order. */
  method ListOf(s: set<string>) returns (l: seq<string>)
    ensures Elems(l) == s && forall i, j :: 0 <= i < j < |l| ==> l[i] != l[j]
  {
    l := [];
    var rest := s;
    while rest != {}
      invariant rest <= s && Elems(l) == s - rest && forall i, j :: 0 <= i < j < |l| ==> l[i] != l[j]
      decreases |rest|
    {
      var x :| x in rest;
      assert forall i :: 0 <= i < |l| ==> l[i] in Elems(l);
      ElemsMore(l, x);
      l, rest := l + [x], rest - {x};
    }
  }

  function Elems(s: seq<string>): set<string> { set x | x in s }

  lemma {:induction false} ElemsMore(s: seq<string>, x: string)
    ensures Elems(s + [x]) == Elems(s) + {x}
  {
  }

  /** The search so far: everything seen or waiting is reached, and what is seen needs nothing else. */
  ghost predicate Searching(nodes: Nodes, start: set<string>, seen: set<string>, waiting: set<string>) {
    start <= seen + waiting && seen <= nodes.Keys && (forall a :: a in seen + waiting ==> Reached(nodes, start, a)) &&
    forall a, b :: a in seen && Needs(nodes, a, b) ==> b in seen + waiting
  }

  lemma {:induction false} Searched(nodes: Nodes, start: set<string>, seen: set<string>)
    requires Searching(nodes, start, seen, {})
    ensures forall b :: b in seen <==> Reached(nodes, start, b)
  {
    hide Needs, Reached;
    forall b | Reached(nodes, start, b) ensures b in seen { ReachedIsLeast(nodes, start, seen, b); }
  }

  lemma {:induction false} Visited(nodes: Nodes, start: set<string>, seen: set<string>, waiting: set<string>, a: string,
      more: set<string>)
    requires Searching(nodes, start, seen, waiting + {a}) && a in nodes && waiting <= more
    requires forall i :: 0 <= i < |nodes[a]| && Linked(nodes[a][i]) ==> nodes[a][i].pkg in more
    requires forall b :: b in more - waiting ==> Needs(nodes, a, b)
    ensures Searching(nodes, start, seen + {a}, more)
  {
    hide Reached;
    assert Reached(nodes, start, a) by { assert a in waiting + {a}; }
    forall b | b in more ensures Reached(nodes, start, b) {
      if b !in waiting { NextIsReached(nodes, start, a, b); }
    }
  }

  lemma {:induction false} NoElems()
    ensures Elems([]) == {}
  {
  }

  /** The loop over one crate's dependencies. */
  method Push(deps: seq<Dep>, pending: seq<string>) returns (more: seq<string>)
    ensures Elems(pending) <= Elems(more)
    ensures forall i :: 0 <= i < |deps| && Linked(deps[i]) ==> deps[i].pkg in Elems(more)
    ensures forall b :: b in Elems(more) ==> b in Elems(pending) || SomeLink(deps, |deps|, b)
  {
    hide Elems;
    more := pending;
    for i := 0 to |deps|
      invariant Elems(pending) <= Elems(more)
      invariant forall j :: 0 <= j < i && Linked(deps[j]) ==> deps[j].pkg in Elems(more)
      invariant forall b :: b in Elems(more) ==> b in Elems(pending) || SomeLink(deps, i, b)
    {
      if Linked(deps[i]) {
        assert LinksTo(deps[i], deps[i].pkg);
        ElemsMore(more, deps[i].pkg);
        more := more + [deps[i].pkg];
      }
    }
  }

  lemma {:induction false} NeedsAll(nodes: Nodes, a: string)
    requires a in nodes
    ensures forall b :: SomeLink(nodes[a], |nodes[a]|, b) ==> Needs(nodes, a, b)
  {
  }

  /** The worklist of reachable: every crate reached from the start. */
  method Search(nodes: Nodes, start: set<string>) returns (r: Result<set<string>, Failure>)
    ensures match r
      case Ok(seen) => seen <= nodes.Keys && forall b :: b in seen <==> Reached(nodes, start, b)
      case Err(e) => e.UnknownCrate? && Reached(nodes, start, e.id) && e.id !in nodes
  {
    hide Needs, Reached, Searching, Elems, Linked, SomeLink;
    NoElems();
    var seen: set<string> := {};
    var pending := ListOf(start);
    assert Searching(nodes, start, seen, start) by { Starting(nodes, start); }
    while pending != []
      invariant Searching(nodes, start, seen, Elems(pending))
      decreases |nodes.Keys - seen|, |pending|
    {
      var pid := pending[|pending| - 1];
      ghost var before := pending;
      pending := pending[..|pending| - 1];
      ElemsMore(pending, pid);
      assert before == pending + [pid];
      Waiting(nodes, start, seen, Elems(pending), pid);
      if pid in seen { continue; }
      if pid !in nodes { return Err(UnknownCrate(pid)); }
      ghost var waiting := Elems(pending);
      pending := Push(nodes[pid], pending);
      NeedsAll(nodes, pid);
      Visited(nodes, start, seen, waiting, pid, Elems(pending));
      assert nodes.Keys - seen == (nodes.Keys - (seen + {pid})) + {pid};
      seen := seen + {pid};
    }
    Keys(nodes, start, seen);
    Searched(nodes, start, seen);
    return Ok(seen);
  }

  lemma {:induction false} Starting(nodes: Nodes, start: set<string>)
    ensures Searching(nodes, start, {}, start)
  {
    hide Needs, Reached;
    forall a | a in start ensures Reached(nodes, start, a) { StartIsReached(nodes, start, a); }
  }

  lemma {:induction false} Keys(nodes: Nodes, start: set<string>, seen: set<string>)
    requires Searching(nodes, start, seen, {})
    ensures seen <= nodes.Keys
  {
    hide Needs, Reached;
  }

  lemma {:induction false} Waiting(nodes: Nodes, start: set<string>, seen: set<string>, waiting: set<string>, a: string)
    requires Searching(nodes, start, seen, waiting + {a})
    ensures Reached(nodes, start, a)
    ensures a in seen ==> Searching(nodes, start, seen, waiting)
  {
    hide Needs, Reached;
    assert a in waiting + {a};
    if a in seen { assert seen + (waiting + {a}) == seen + waiting; }
  }

  lemma {:induction false} EachOnce(cs: seq<Crate>)
    requires forall i, j :: 0 <= i < j < |cs| ==> cs[i] != cs[j]
    ensures forall c :: c in cs ==> multiset(cs)[c] == 1
    decreases |cs|
  {
    if cs != [] {
      var k := |cs| - 1;
      EachOnce(cs[..k]);
      assert cs == cs[..k] + [cs[k]];
    }
  }

  method Reachable(crates: Crates, nodes: Nodes, roots: set<string>, built: Option<set<(string, string)>>)
    returns (r: Result<seq<Crate>, Failure>)
    requires forall i :: i in crates ==> crates[i].id == i
    ensures r.Ok? ==> IsReachable(crates, nodes, roots, built, r.value)
    ensures match r
      case Ok(_) => true
      case Err(NoSuchRoot(names)) => names == roots - NamesOf(crates, Start(crates, roots)) != {}
      case Err(UnknownCrate(id)) => Reached(nodes, Start(crates, roots), id) && (id !in nodes || id !in crates)
      case Err(_) => false
  {
    hide Reached, InOrder, SortCrates, IsReachable, Start, NamesOf, IsBuilt, Elems;
    var start := Start(crates, roots);
    var missing := roots - NamesOf(crates, start);
    if missing != {} { return Err(NoSuchRoot(missing)); }
    var searched := Search(nodes, start);
    if searched.Err? { return Err(searched.error); }
    var seen := searched.value;
    if !(seen <= crates.Keys) {
      var unknown :| unknown in seen && unknown !in crates;
      return Err(UnknownCrate(unknown));
    }
    var ids := ListOf(Kept(crates, seen, built));
    ElemsOf(ids);
    var cs := seq(|ids|, k requires 0 <= k < |ids| => crates[ids[k]]);
    Picked(crates, ids, cs);
    assert roots <= NamesOf(crates, start) by { assert forall x :: x in roots ==> x !in missing; }
    Answered(crates, nodes, roots, built, seen, cs);
    return Ok(SortCrates(cs));
  }

  function Kept(crates: Crates, seen: set<string>, built: Option<set<(string, string)>>): set<string>
    requires seen <= crates.Keys
  {
    set i | i in seen && IsBuilt(crates[i], built)
  }

  lemma {:induction false} ElemsOf(s: seq<string>)
    ensures forall k :: 0 <= k < |s| ==> s[k] in Elems(s)
  {
  }

  lemma {:induction false} ElemAt(s: seq<string>, x: string)
    requires x in Elems(s)
    ensures exists k :: 0 <= k < |s| && s[k] == x
  {
  }

  lemma {:induction false} Answered(crates: Crates, nodes: Nodes, roots: set<string>,
      built: Option<set<(string, string)>>, seen: set<string>, cs: seq<Crate>)
    requires roots <= NamesOf(crates, Start(crates, roots)) && seen <= nodes.Keys && seen <= crates.Keys
    requires forall b :: b in seen <==> Reached(nodes, Start(crates, roots), b)
    requires forall c :: c in cs ==> multiset(cs)[c] == 1
    requires forall c :: c in cs <==> c.id in Kept(crates, seen, built) && crates[c.id] == c
    ensures IsReachable(crates, nodes, roots, built, SortCrates(cs))
  {
    hide Reached, InOrder, SortCrates, Start, NamesOf, IsBuilt;
    SortedCrates(cs);
    var sorted := SortCrates(cs);
    forall c ensures c in sorted <==> c in cs {
      assert c in sorted <==> c in multiset(sorted);
      assert c in cs <==> c in multiset(cs);
    }
  }

  lemma {:induction false} Picked(crates: Crates, ids: seq<string>, cs: seq<Crate>)
    requires (forall i :: i in crates ==> crates[i].id == i) && |cs| == |ids|
    requires forall k :: 0 <= k < |ids| ==> ids[k] in crates && cs[k] == crates[ids[k]]
    requires forall i, j :: 0 <= i < j < |ids| ==> ids[i] != ids[j]
    ensures forall c :: c in cs ==> multiset(cs)[c] == 1
    ensures forall c :: c in cs <==> c.id in Elems(ids) && c.id in crates && crates[c.id] == c
  {
    hide Elems;
    ElemsOf(ids);
    forall c | c in cs ensures c.id in Elems(ids) && c.id in crates && crates[c.id] == c {
      var k :| 0 <= k < |cs| && cs[k] == c;
      assert ids[k] in Elems(ids);
    }
    forall c: Crate | c.id in Elems(ids) && c.id in crates && crates[c.id] == c ensures c in cs {
      ElemAt(ids, c.id);
      var k :| 0 <= k < |ids| && ids[k] == c.id;
      assert cs[k] == c;
    }
    assert forall k :: 0 <= k < |cs| ==> cs[k].id == ids[k];
    EachOnce(cs);
  }

  // ---- What they are under ----

  /** The notices the crates carry themselves, and those named on the command line. */
  datatype Notices = Notices(own: set<string>, given: set<string>)

  /** A notice reviewed for this very crate, or for every crate of a source. */
  predicate IsGiven(n: Notices, c: Crate) {
    c.name + "@" + c.version in n.given ||
    exists prefix :: prefix in n.given && '@' !in prefix && c.source.Some? && prefix <= c.source.value
  }

  predicate HasNotice(n: Notices, c: Crate) { c.source.None? || c.id in n.own || IsGiven(n, c) }

  function TermsOf(cs: seq<Crate>): set<string> { set c | c in cs :: L.Normalised(c.license) }

  /** collect: the licence expression of the crates, when each declares one and what is not the workspace's own has a
      notice to ship. */
  method Collect(cs: seq<Crate>, notices: Notices) returns (r: Result<string, Failure>)
    ensures r.Ok? <==> forall c :: c in cs ==> c.license != "" && HasNotice(notices, c)
    ensures match r
      case Ok(text) => text == L.Conjunction(TermsOf(cs))
      case Err(NoLicence(c)) => c in cs && c.license == ""
      case Err(NoNotice(c)) => c in cs && !HasNotice(notices, c)
      case Err(_) => false
  {
    var expressions: set<string> := {};
    for i := 0 to |cs|
      invariant expressions == TermsOf(cs[..i])
      invariant forall c :: c in cs[..i] ==> c.license != "" && HasNotice(notices, c)
    {
      var c := cs[i];
      assert cs[..i + 1] == cs[..i] + [c];
      if c.license == "" { return Err(NoLicence(c)); }
      expressions := expressions + {L.Normalised(c.license)};
      if c.source.None? { continue; }
      if c.id !in notices.own && !IsGiven(notices, c) { return Err(NoNotice(c)); }
    }
    assert cs[..|cs|] == cs;
    var text := L.Combined(expressions);
    return Ok(text);
  }

  /** The crate's declared licence holds; a slash is OR. */
  predicate Declares(v: L.Terms, c: Crate) { L.Holds(v, L.Tokens(L.Slashes(c.license))) }

  /** The collected expression means what every crate declares, all together. */
  lemma {:induction false} CollectedMeans(v: L.Terms, cs: seq<Crate>)
    requires cs != [] && forall c :: c in cs ==> L.Balanced(L.Tokens(L.Slashes(c.license)))
    requires |TermsOf(cs)| == 1 || forall c :: c in cs ==> L.Clear(L.Normalised(c.license))
    ensures L.Holds(v, L.Tokens(L.Conjunction(TermsOf(cs)))) == (forall c :: c in cs ==> Declares(v, c))
  {
    hide L.Normalised, L.Balanced, L.Tokens, L.Slashes, L.Clear, L.Holds, L.Conjunction;
    forall c | c in cs
      ensures L.Holds(v, L.Tokens(L.Normalised(c.license))) == Declares(v, c)
      ensures L.Balanced(L.Tokens(L.Normalised(c.license)))
    {
      L.NormalisedMeans(v, c.license);
    }
    var terms := TermsOf(cs);
    assert L.Normalised(cs[0].license) in terms by { assert cs[0] in cs; }
    L.CombinedMeans(v, terms);
    if L.EachHolds(v, terms) {
      forall c | c in cs ensures Declares(v, c) { assert L.Normalised(c.license) in terms; }
    }
  }

  predicate IsLicenceOf(cs: seq<Crate>, notices: Notices, text: string) {
    text == L.Conjunction(TermsOf(cs)) && forall c :: c in cs ==> c.license != "" && HasNotice(notices, c)
  }

  /** Every root is a workspace crate, every crate reached is described, and each that is built declares a licence and
      has its notice. */
  ghost predicate CanCollect(crates: Crates, nodes: Nodes, roots: set<string>, built: Option<set<(string, string)>>,
      notices: Notices)
  {
    var start := Start(crates, roots);
    roots <= NamesOf(crates, start) &&
    forall b :: Reached(nodes, start, b) ==>
      b in nodes && b in crates &&
      (IsBuilt(crates[b], built) ==> crates[b].license != "" && HasNotice(notices, crates[b]))
  }

  lemma {:induction false} CollectsReached(crates: Crates, nodes: Nodes, roots: set<string>,
      built: Option<set<(string, string)>>, notices: Notices, cs: seq<Crate>)
    requires IsReachable(crates, nodes, roots, built, cs) && forall i :: i in crates ==> crates[i].id == i
    ensures CanCollect(crates, nodes, roots, built, notices) <==>
      forall c :: c in cs ==> c.license != "" && HasNotice(notices, c)
  {
    hide Reached, Start, NamesOf, IsBuilt, HasNotice, InOrder;
    if forall c :: c in cs ==> c.license != "" && HasNotice(notices, c) {
      forall b | Reached(nodes, Start(crates, roots), b) && IsBuilt(crates[b], built)
        ensures crates[b].license != "" && HasNotice(notices, crates[b])
      {
        assert crates[b] in cs;
      }
    }
  }

  /** main: the expression of everything a build of the roots links. */
  method LicenceOf(crates: Crates, nodes: Nodes, roots: set<string>, built: Option<set<(string, string)>>,
      notices: Notices) returns (r: Result<string, Failure>)
    requires forall i :: i in crates ==> crates[i].id == i
    ensures r.Ok? <==> CanCollect(crates, nodes, roots, built, notices)
    ensures r.Ok? ==>
      exists cs :: IsReachable(crates, nodes, roots, built, cs) && IsLicenceOf(cs, notices, r.value)
  {
    hide IsReachable, L.Conjunction, TermsOf, HasNotice, IsBuilt, Reached;
    var reached := Reachable(crates, nodes, roots, built);
    if reached.Err? {
      hide Start, NamesOf;
      return Err(reached.error);
    }
    CollectsReached(crates, nodes, roots, built, notices, reached.value);
    r := Collect(reached.value, notices);
    if r.Ok? { assert IsLicenceOf(reached.value, notices, r.value); }
  }
}

/** Where links of an overlay lead: what the check on their targets guarantees, and what it does not (reference.py). */
module OverlayLinks {
  import opened Prelude
  import opened Overlay

  function Up(p: Path): Path { if p == [] then [] else p[..|p| - 1] }

  predicate InUsr(p: Path) { p != [] && p[0] == "usr" }

  predicate IsLinkAt(t: Tree, p: Path) { p in t && t[p].Link? }

  /** Following todo from the directory cur ends at `at`, after hops links. What the overlay does not hold is no
      link. */
  predicate Follows(t: Tree, cur: Path, todo: Path, hops: nat, at: Path)
    decreases hops, |todo|
  {
    if todo == [] then hops == 0 && at == cur
    else if todo[0] == ".." then Follows(t, Up(cur), todo[1..], hops, at)
    else
      var p := cur + [todo[0]];
      if IsLinkAt(t, p) then hops > 0 && Follows(t, cur, t[p].target + todo[1..], hops - 1, at)
      else Follows(t, p, todo[1..], hops, at)
  }

  /** The link at p leads to `at`; one that leads back to itself leads nowhere. */
  ghost predicate Leads(t: Tree, p: Path, at: Path) {
    IsLinkAt(t, p) && exists hops: nat :: Follows(t, Up(p), t[p].target, hops, at)
  }

  // ---- The links that are accepted ----

  predicate IsPart(c: string) { c != "" && '/' !in c && c != "." }

  predicate AreParts(parts: Path) { forall i :: 0 <= i < |parts| ==> IsPart(parts[i]) }

  /** Where the text of a link points, read with its own path alone. */
  function PointsTo(path: Path, parts: Path): Path { Normal([], Up(path) + parts) }

  predicate LinkOk(path: Path, parts: Path) {
    UnderUsr(path) && AreParts(parts) && InUsr(PointsTo(path, parts)) && ".." !in PointsTo(path, parts)
  }

  lemma {:induction false} PartsRead(parts: Path)
    ensures AreParts(parts) ==>
      Components(Written(parts)) == parts && (Written(parts) != "" ==> Written(parts)[0] != '/')
    decreases |parts|
  {
    if AreParts(parts) {
      hide Components;
      if parts == [] {
        DotRead();
      } else if |parts| == 1 {
        PartRead(parts[0], "");
        NoComponents("");
        assert parts[0] + "" == parts[0];
      } else {
        var rest := Written(parts[1..]);
        PartsRead(parts[1..]);
        PartRead(parts[0], "/" + rest);
        SlashRead(rest);
        assert Written(parts) == parts[0] + ("/" + rest);
      }
    }
  }

  lemma {:induction false} DotRead()
    ensures Components(".") == []
  {
    SegmentRead(".", "");
    assert "." + "" == ".";
  }

  lemma {:induction false} PartRead(c: string, rest: string)
    requires IsPart(c) && (rest == "" || rest[0] == '/')
    ensures Components(c + rest) == [c] + Components(rest)
  {
    SegmentRead(c, rest);
    assert (c + rest)[|c|..] == rest && (c + rest)[0] == c[0];
  }

  lemma {:induction false} WantedAsWritten(path: Path, parts: Path)
    requires LinkOk(path, parts)
    ensures Wanted(Symlink(Written(parts), 0), Written(path)) == Some(Entry(path, Link(parts)))
  {
    hide Components, Written, Normal, Trimmed;
    PartsRead(parts);
    RelativeExactly(Written(path), path);
  }

  /** A link is accepted at a path exactly when it points below usr by its own text. */
  lemma {:induction false} AcceptedExactly(path: Path, parts: Path)
    ensures LinkOk(path, parts) <==>
      exists target, mode, name :: Wanted(Symlink(target, mode), name) == Some(Entry(path, Link(parts)))
  {
    hide Components, Written, Normal, Trimmed;
    if LinkOk(path, parts) { WantedAsWritten(path, parts); }
    forall target, mode, name | Wanted(Symlink(target, mode), name) == Some(Entry(path, Link(parts)))
      ensures LinkOk(path, parts)
    {
      RelativeExactly(name, path);
      ComponentsAre(target);
    }
  }

  // ---- Overlays ----

  ghost predicate IsPlaced(e: Entry) { UnderUsr(e.path) && (e.node.Link? ==> LinkOk(e.path, e.node.target)) }

  /** Accepted entries that can be placed together. */
  ghost predicate IsOverlay(es: seq<Entry>) { (forall e :: e in es ==> IsPlaced(e)) && PutAll(es).Some? }

  /** What holds of the tree of accepted entries. */
  ghost predicate Fine(t: Tree) {
    Sound(t) && forall p :: p in t ==> InUsr(p) && (t[p].Link? ==> LinkOk(p, t[p].target))
  }

  lemma {:induction false} OverlayIsFine(es: seq<Entry>)
    requires IsOverlay(es)
    ensures Fine(PutAll(es).value)
    ensures forall e :: e in es ==> e.path in PutAll(es).value && PutAll(es).value[e.path] == e.node
  {
    hide PutAll, LinkOk, Sound, Compatible, Built, Reaches, NodeAt;
    var t, m := PutAll(es).value, multiset(es);
    assert Rooted(es) by { assert forall i :: 0 <= i < |es| ==> es[i] in es; }
    PlacesCompatible(es);
    BuiltIsSound(t, m);
    forall p | p in t ensures InUsr(p) && (t[p].Link? ==> LinkOk(p, t[p].target)) {
      var e := EntryAt(t, m, p);
      assert e in es;
      PlacedFits(e, p);
    }
    forall e | e in es ensures e.path in t && t[e.path] == e.node {
      ReachesItself(e);
      NodeOf(t, m, e, e.path);
    }
  }

  lemma {:induction false} PlacedFits(e: Entry, p: Path)
    requires IsPlaced(e) && Reaches(e, p)
    ensures InUsr(p) && (NodeAt(e, p).Link? ==> LinkOk(p, NodeAt(e, p).target))
  {
    hide LinkOk;
  }

  /** The link, placed with these others, leads to `at`. */
  ghost predicate CanLead(es: seq<Entry>, path: Path, parts: Path, at: Path) {
    IsOverlay(es) && Entry(path, Link(parts)) in es && Leads(PutAll(es).value, path, at)
  }

  // ---- Paths that meet no link ----

  /** Where todo leads from cur when it meets no link; ".." of the root is the root. */
  function Lexical(cur: Path, todo: Path): Path
    decreases |todo|
  {
    if todo == [] then cur else Lexical(if todo[0] == ".." then Up(cur) else cur + [todo[0]], todo[1..])
  }

  /** Following todo from cur by its text alone comes to a link of the tree. */
  predicate MeetsLink(t: Tree, cur: Path, todo: Path)
    decreases |todo|
  {
    todo != [] &&
    if todo[0] == ".." then MeetsLink(t, Up(cur), todo[1..])
    else IsLinkAt(t, cur + [todo[0]]) || MeetsLink(t, cur + [todo[0]], todo[1..])
  }

  lemma {:induction false} FollowsText(t: Tree, cur: Path, todo: Path, hops: nat, at: Path)
    requires !MeetsLink(t, cur, todo)
    ensures Follows(t, cur, todo, hops, at) <==> hops == 0 && at == Lexical(cur, todo)
    decreases |todo|
  {
    if todo != [] {
      FollowsText(t, if todo[0] == ".." then Up(cur) else cur + [todo[0]], todo[1..], hops, at);
    }
  }

  /** normpath keeps a ".." that climbs out of its start. */
  lemma {:induction false} ClimbStays(done: Path, todo: Path)
    requires done != [] && done[0] == ".."
    ensures Normal(done, todo) != [] && Normal(done, todo)[0] == ".."
    decreases |todo|
  {
    if todo != [] {
      var pops := todo[0] == ".." && done[|done| - 1] != "..";
      ClimbStays(if pops then Up(done) else done + [todo[0]], todo[1..]);
    }
  }

  lemma {:induction false} NormalIsLexical(done: Path, todo: Path)
    requires ".." !in done && ".." !in Normal(done, todo)
    ensures Normal(done, todo) == Lexical(done, todo)
    decreases |todo|
  {
    if todo != [] {
      if todo[0] == ".." && done == [] {
        assert done + [todo[0]] == [".."];
        ClimbStays([".."], todo[1..]);
      } else {
        NormalIsLexical(if todo[0] == ".." then Up(done) else done + [todo[0]], todo[1..]);
      }
    }
  }

  lemma {:induction false} NormalFrom(done: Path, a: Path, b: Path)
    requires ".." !in a
    ensures Normal(done, a + b) == Normal(done + a, b)
    decreases |a|
  {
    if a == [] {
      assert a + b == b && done + a == done;
    } else {
      assert (a + b)[1..] == a[1..] + b && (a + b)[0] == a[0] && a[0] in a;
      NormalFrom(done + [a[0]], a[1..], b);
      assert done + [a[0]] + a[1..] == done + a;
    }
  }

  lemma {:induction false} PointsFrom(path: Path, parts: Path)
    requires LinkOk(path, parts)
    ensures ".." !in Up(path) && Normal(Up(path), parts) == PointsTo(path, parts) == Lexical(Up(path), parts)
  {
    assert forall c :: c in Up(path) ==> c in path;
    assert forall c :: c in path ==> IsComponent(c);
    NormalFrom([], Up(path), parts);
    assert [] + Up(path) == Up(path);
    NormalIsLexical(Up(path), parts);
  }

  /** A link whose text meets no other link leads where its text points, below usr. */
  lemma {:induction false} LeadsByText(t: Tree, p: Path, at: Path)
    requires Fine(t) && IsLinkAt(t, p) && !MeetsLink(t, Up(p), t[p].target)
    ensures Leads(t, p, at) <==> at == PointsTo(p, t[p].target)
    ensures Leads(t, p, at) ==> InUsr(at)
  {
    hide Follows, MeetsLink;
    PointsFrom(p, t[p].target);
    forall hops: nat { FollowsText(t, Up(p), t[p].target, hops, at); }
    assert Follows(t, Up(p), t[p].target, 0, at) <==> at == PointsTo(p, t[p].target);
  }

  // ---- Links that climb first ----

  /** Every ".." stands before every name. */
  predicate ClimbsFirst(parts: Path) { forall i, j :: 0 <= i < j < |parts| && parts[j] == ".." ==> parts[i] == ".." }

  ghost predicate AllClimbFirst(t: Tree) { forall p :: IsLinkAt(t, p) ==> ClimbsFirst(t[p].target) }

  /** From cur, names alone come below usr. */
  predicate Descends(cur: Path, todo: Path) {
    ".." !in todo && (InUsr(cur) || (cur == [] && todo != [] && todo[0] == "usr"))
  }

  lemma {:induction false} NamesStay(t: Tree, cur: Path, todo: Path, hops: nat, at: Path)
    requires Fine(t) && AllClimbFirst(t) && Descends(cur, todo) && Follows(t, cur, todo, hops, at)
    ensures InUsr(at)
    decreases hops, |todo|, 0
  {
    if todo != [] {
      var p, rest := cur + [todo[0]], todo[1..];
      assert todo[0] in todo && forall c :: c in rest ==> c in todo;
      if IsLinkAt(t, p) {
        assert Up(p) == cur;
        PointsFrom(p, t[p].target);
        ClimbsThenStays(t, cur, t[p].target, rest, hops - 1, at);
      } else {
        NamesStay(t, p, rest, hops, at);
      }
    }
  }

  lemma {:induction false} ClimbsThenStays(t: Tree, cur: Path, parts: Path, rest: Path, hops: nat, at: Path)
    requires Fine(t) && AllClimbFirst(t) && ".." !in cur && ClimbsFirst(parts) && ".." !in rest
    requires InUsr(Normal(cur, parts)) && ".." !in Normal(cur, parts)
    requires Follows(t, cur, parts + rest, hops, at)
    ensures InUsr(at)
    decreases hops, |parts| + |rest|, 1
  {
    if parts == [] {
      assert parts + rest == rest;
      NamesStay(t, cur, rest, hops, at);
    } else if parts[0] == ".." {
      assert (parts + rest)[1..] == parts[1..] + rest;
      if cur == [] {
        assert cur + [parts[0]] == [".."];
        ClimbStays([".."], parts[1..]);
      } else {
        ClimbsThenStays(t, Up(cur), parts[1..], rest, hops, at);
      }
    } else {
      assert ".." !in parts by {
        forall j | 0 <= j < |parts| ensures parts[j] != ".." {}
      }
      NormalFrom(cur, parts, []);
      assert parts + [] == parts && Normal(cur + parts, []) == cur + parts;
      NamesStay(t, cur, parts + rest, hops, at);
    }
  }

  /** When every link of an overlay climbs first, they all lead below usr, however many others they pass through. */
  lemma {:induction false} ClimbingFirstStays(t: Tree, p: Path, at: Path)
    requires Fine(t) && AllClimbFirst(t) && Leads(t, p, at)
    ensures InUsr(at)
  {
    hide Follows;
    var hops: nat :| Follows(t, Up(p), t[p].target, hops, at);
    var parts := t[p].target;
    PointsFrom(p, parts);
    assert parts + [] == parts;
    ClimbsThenStays(t, Up(p), parts, [], hops, at);
  }

  // ---- When a link can be led out, whatever else is placed ----

  /** No link can stand at q beside a link at path: q is above it, or not in the overlay at all. */
  predicate Fixed(path: Path, q: Path) { q <= Up(path) || !InUsr(q) }

  /** The first place where todo, followed from cur, leaves what is fixed. */
  function Leaves(path: Path, cur: Path, todo: Path): Option<Path>
    decreases |todo|
  {
    if todo == [] then None
    else if todo[0] == ".." then Leaves(path, Up(cur), todo[1..])
    else
      var q := cur + [todo[0]];
      if Fixed(path, q) then Leaves(path, q, todo[1..]) else Some(q)
  }

  /** The link's text names, before the link itself, a place below usr that is not above the link. */
  predicate Redirectable(path: Path, parts: Path) {
    var q := Leaves(path, Up(path), parts);
    q.Some? && q.value != path
  }

  lemma {:induction false} FixedIsNoLink(t: Tree, path: Path, q: Path)
    requires Fine(t) && path in t && Fixed(path, q)
    ensures !IsLinkAt(t, q)
  {
    if q <= Up(path) && q in t {
      assert q != [] && 0 < |q| < |path| && q == path[..|q|];
    }
  }

  lemma {:induction false} FixedMeetsNone(t: Tree, path: Path, cur: Path, todo: Path)
    requires Fine(t) && path in t && Leaves(path, cur, todo) == None
    ensures !MeetsLink(t, cur, todo)
    decreases |todo|
  {
    hide Fine, Fixed;
    if todo != [] {
      if todo[0] == ".." {
        FixedMeetsNone(t, path, Up(cur), todo[1..]);
      } else {
        FixedIsNoLink(t, path, cur + [todo[0]]);
        FixedMeetsNone(t, path, cur + [todo[0]], todo[1..]);
      }
    }
  }

  /** A link whose text comes back to itself leads nowhere. */
  lemma {:induction false} Loops(t: Tree, path: Path, cur: Path, todo: Path, rest: Path, hops: nat, at: Path)
    requires Fine(t) && IsLinkAt(t, path)
    requires Leaves(path, Up(path), t[path].target) == Some(path) == Leaves(path, cur, todo)
    ensures !Follows(t, cur, todo + rest, hops, at)
    decreases hops, |todo|
  {
    hide Fine, Fixed;
    assert (todo + rest)[1..] == todo[1..] + rest;
    if todo[0] == ".." {
      Loops(t, path, Up(cur), todo[1..], rest, hops, at);
    } else {
      var q := cur + [todo[0]];
      if Fixed(path, q) {
        FixedIsNoLink(t, path, q);
        Loops(t, path, q, todo[1..], rest, hops, at);
      } else if hops > 0 {
        assert Up(path) == cur;
        Loops(t, path, cur, t[path].target, todo[1..] + rest, hops - 1, at);
      }
    }
  }

  /** A link that cannot be redirected leads where its text points, or nowhere, whatever else is placed. */
  lemma {:induction false} NotRedirected(es: seq<Entry>, path: Path, parts: Path, at: Path)
    requires CanLead(es, path, parts, at) && !Redirectable(path, parts)
    ensures at == PointsTo(path, parts) && InUsr(at)
  {
    hide PutAll, IsPlaced, Leaves, Follows, Fine, LinkOk;
    var t := PutAll(es).value;
    OverlayIsFine(es);
    if Leaves(path, Up(path), parts) == None {
      FixedMeetsNone(t, path, Up(path), parts);
      LeadsByText(t, path, at);
    } else {
      var hops: nat :| Follows(t, Up(path), parts, hops, at);
      assert parts + [] == parts;
      Loops(t, path, Up(path), parts, [], hops, at);
    }
  }

  // ---- Leading a link out ----

  /** Following the text up to where it leaves what is fixed meets no link. */
  lemma {:induction false} FollowsToLeaving(t: Tree, path: Path, cur: Path, todo: Path) returns (rest: Path)
    requires Fine(t) && path in t && Leaves(path, cur, todo).Some?
    ensures var q := Leaves(path, cur, todo).value;
      q != [] && |rest| < |todo| &&
      forall hops: nat, at :: Follows(t, Up(q), [q[|q| - 1]] + rest, hops, at) ==> Follows(t, cur, todo, hops, at)
    decreases |todo|
  {
    hide Fine, Fixed;
    if todo[0] == ".." {
      rest := FollowsToLeaving(t, path, Up(cur), todo[1..]);
    } else {
      var q := cur + [todo[0]];
      if Fixed(path, q) {
        FixedIsNoLink(t, path, q);
        rest := FollowsToLeaving(t, path, q, todo[1..]);
      } else {
        rest := todo[1..];
        assert Up(q) == cur && [q[|q| - 1]] + rest == todo;
      }
    }
  }

  function Ups(n: nat): Path { seq(n, _ => "..") }

  const OUT := "x"

  function Outs(n: nat): Path { seq(n, _ => OUT) }

  lemma {:induction false} UpsFollow(t: Tree, cur: Path, n: nat, rest: Path, hops: nat, at: Path)
    requires n <= |cur|
    ensures Follows(t, cur, Ups(n) + rest, hops, at) <==> Follows(t, cur[..|cur| - n], rest, hops, at)
    decreases n
  {
    var todo := Ups(n) + rest;
    if n == 0 {
      assert todo == rest && cur[..|cur|] == cur;
    } else {
      assert todo[1..] == Ups(n - 1) + rest;
      UpsFollow(t, Up(cur), n - 1, rest, hops, at);
      assert Up(cur)[..|Up(cur)| - (n - 1)] == cur[..|cur| - n];
    }
  }

  lemma {:induction false} UpsNormal(cur: Path, n: nat)
    requires n <= |cur| && ".." !in cur
    ensures Normal(cur, Ups(n)) == cur[..|cur| - n]
    decreases n
  {
    if n > 0 {
      assert Ups(n)[1..] == Ups(n - 1);
      UpsNormal(Up(cur), n - 1);
    }
  }

  /** Deep enough outside usr, no number of ".." comes back. */
  lemma {:induction false} StaysOut(t: Tree, cur: Path, n: nat, rest: Path)
    requires Fine(t) && cur != [] && cur[0] == OUT && |cur| + n > |rest|
    ensures !MeetsLink(t, cur, Outs(n) + rest)
    ensures Lexical(cur, Outs(n) + rest) != [] && Lexical(cur, Outs(n) + rest)[0] == OUT
    decreases n, |rest|
  {
    hide LinkOk, Sound;
    var todo := Outs(n) + rest;
    if n > 0 {
      assert todo[1..] == Outs(n - 1) + rest;
      StaysOut(t, cur + [OUT], n - 1, rest);
    } else if rest != [] {
      assert todo == rest && rest[1..] == Outs(0) + rest[1..];
      StaysOut(t, if rest[0] == ".." then Up(cur) else cur + [rest[0]], 0, rest[1..]);
    }
  }

  lemma {:induction false} GoesOut(t: Tree, n: nat, rest: Path) returns (at: Path)
    requires Fine(t) && n > |rest|
    ensures Follows(t, [], Outs(n) + rest, 0, at) && !InUsr(at)
  {
    hide LinkOk, Sound;
    var todo := Outs(n) + rest;
    assert todo[1..] == Outs(n - 1) + rest && [] + [OUT] == [OUT];
    StaysOut(t, [OUT], n - 1, rest);
    at := Lexical([], todo);
    FollowsText(t, [], todo, 0, at);
  }

  /** A link up to usr beside the place q, and a link at q that goes through it and out. */
  function Ladder(q: Path, f: string): Entry
    requires |q| > 1
  {
    Entry(Up(q) + [f], Link(Ups(|q| - 2)))
  }

  function Detour(q: Path, f: string, n: nat): Entry { Entry(q, Link([f, ".."] + Outs(n))) }

  lemma {:induction false} NoClimbIn(q: Path)
    requires UnderUsr(q)
    ensures ".." !in q && ".." !in Up(q)
  {
    assert forall c :: c in q ==> IsComponent(c);
    assert forall c :: c in Up(q) ==> c in q;
  }

  lemma {:induction false} LadderIsPlaced(q: Path, f: string)
    requires UnderUsr(q) && |q| > 1 && IsComponent(f)
    ensures IsPlaced(Ladder(q, f))
  {
    hide Normal;
    var up, n := Up(q), |q| - 2;
    NoClimbIn(q);
    assert Up(up + [f]) == up && [] + up == up;
    NormalFrom([], up, Ups(n));
    UpsNormal(up, n);
    assert up[..|up| - n] == ["usr"];
  }

  lemma {:induction false} DetourNormal(up: Path, f: string, n: nat)
    requires ".." !in up && f != ".."
    ensures Normal(up, [f, ".."] + Outs(n)) == up + Outs(n)
  {
    var parts := [f, ".."] + Outs(n);
    assert parts[1..] == [".."] + Outs(n) && parts[1..][1..] == Outs(n) && (up + [f])[..|up|] == up;
    NormalFrom(up, Outs(n), []);
    assert Outs(n) + [] == Outs(n);
  }

  lemma {:induction false} DetourIsPlaced(q: Path, f: string, n: nat)
    requires UnderUsr(q) && |q| > 1 && IsComponent(f)
    ensures IsPlaced(Detour(q, f, n))
  {
    hide Normal;
    var up, parts := Up(q), [f, ".."] + Outs(n);
    NoClimbIn(q);
    NormalFrom([], up, parts);
    DetourNormal(up, f, n);
    assert [] + up == up && up[0] == "usr";
    assert IsPart(OUT) && IsPart(f) && IsPart("..");
    hide IsPart;
  }

  lemma {:induction false} ThreePlaced(a: Entry, b: Entry, c: Entry)
    requires a.path != [] && b.path != [] && c.path != []
    requires !(a.path <= b.path) && !(b.path <= a.path) && !(a.path <= c.path) && !(c.path <= a.path)
    requires !(b.path <= c.path) && !(c.path <= b.path)
    ensures PutAll([a, b, c]).Some?
  {
    hide PutAll;
    var es := [a, b, c];
    PlacesCompatible(es);
    var m := multiset(es);
    assert m == multiset{a, b, c};
    assert a != b && a != c && b != c;
  }

  /** The ladder, then "..": the root. */
  lemma {:induction false} LadderGoesUp(t: Tree, q: Path, f: string, rest: Path, at: Path)
    requires |q| > 1 && f != ".." && IsLinkAt(t, Up(q) + [f]) && t[Up(q) + [f]] == Ladder(q, f).node
    requires Follows(t, [], rest, 0, at)
    ensures Follows(t, Up(q), [f, ".."] + rest, 1, at)
  {
    var up, way := Up(q), [".."] + rest;
    assert way[1..] == rest && Up(up[..1]) == [];
    assert Follows(t, up[..1], way, 0, at);
    UpsFollow(t, up, |q| - 2, way, 0, at);
    var through := [f, ".."] + rest;
    assert through[1..] == way;
  }

  /** The detour goes up the ladder and out of usr. */
  lemma {:induction false} DetourGoesOut(t: Tree, q: Path, f: string, n: nat, rest: Path) returns (at: Path)
    requires Fine(t) && |q| > 1 && q[|q| - 1] != ".." && f != ".." && n > |rest|
    requires q in t && t[q] == Detour(q, f, n).node
    requires IsLinkAt(t, Up(q) + [f]) && t[Up(q) + [f]] == Ladder(q, f).node
    ensures Follows(t, Up(q), [q[|q| - 1]] + rest, 2, at) && !InUsr(at)
  {
    hide Fine, InUsr, IsLinkAt, Ladder;
    at := GoesOut(t, n, rest);
    LadderGoesUp(t, q, f, Outs(n) + rest, at);
    var todo := [q[|q| - 1]] + rest;
    assert Up(q) + [todo[0]] == q && todo[1..] == rest;
    assert ([f, ".."] + Outs(n)) + rest == [f, ".."] + (Outs(n) + rest);
    LinkFollowed(t, Up(q), todo, 1, at);
  }

  lemma {:induction false} LinkFollowed(t: Tree, cur: Path, todo: Path, hops: nat, at: Path)
    requires todo != [] && todo[0] != ".." && cur + [todo[0]] in t && t[cur + [todo[0]]].Link?
    requires Follows(t, cur, t[cur + [todo[0]]].target + todo[1..], hops, at)
    ensures Follows(t, cur, todo, hops + 1, at)
  {
  }

  lemma {:induction false} OtherName(a: string, b: string) returns (f: string)
    ensures f != a && f != b && IsComponent(f)
  {
    f := if a != "a" && b != "a" then "a" else if a != "b" && b != "b" then "b" else "c";
  }

  lemma {:induction false} StartIsFixed(path: Path)
    ensures Fixed(path, Up(path))
  {
  }

  /** Where the text leaves what is fixed is beside the link or above what is beside it. */
  lemma {:induction false} LeavesBeside(path: Path, cur: Path, todo: Path)
    requires UnderUsr(path) && AreParts(todo) && Fixed(path, cur)
    requires Leaves(path, cur, todo).Some? && Leaves(path, cur, todo).value != path
    ensures var q := Leaves(path, cur, todo).value;
      UnderUsr(q) && 1 < |q| <= |path| && Up(q) <= Up(path) && !(q <= path)
    decreases |todo|
  {
    if todo[0] == ".." {
      LeavesBeside(path, Up(cur), todo[1..]);
    } else {
      var q := cur + [todo[0]];
      if Fixed(path, q) {
        LeavesBeside(path, q, todo[1..]);
      } else {
        assert Up(q) == cur && InUsr(q);
        assert cur <= Up(path);
        assert q <= path && |q| < |path| ==> q <= Up(path);
        assert q <= path && |q| == |path| ==> q == path;
      }
    }
  }

  /** The link, the place q and what is beside q are apart: none is at or below another. */
  lemma {:induction false} ApartFrom(path: Path, q: Path, f: string)
    requires 1 < |q| <= |path| && Up(q) <= Up(path) && !(q <= path)
    requires f != q[|q| - 1] && f != path[|q| - 1]
    ensures var side := Up(q) + [f];
      !(path <= q) && !(side <= path) && !(path <= side) && !(side <= q) && !(q <= side)
  {
    var side := Up(q) + [f];
    assert side[|q| - 1] == f && |side| == |q|;
    assert path <= q ==> |path| == |q| && path == q;
  }

  lemma {:induction false} CanBeLedOut(path: Path, parts: Path) returns (es: seq<Entry>, at: Path)
    requires LinkOk(path, parts) && Redirectable(path, parts)
    ensures CanLead(es, path, parts, at) && !InUsr(at)
  {
    hide PutAll, Follows, Fixed, Leaves;
    var q := Leaves(path, Up(path), parts).value;
    StartIsFixed(path);
    LeavesBeside(path, Up(path), parts);
    var f := OtherName(q[|q| - 1], path[|q| - 1]);
    var e, ladder, detour := Entry(path, Link(parts)), Ladder(q, f), Detour(q, f, |parts|);
    LadderIsPlaced(q, f);
    DetourIsPlaced(q, f, |parts|);
    ApartFrom(path, q, f);
    ThreePlaced(e, ladder, detour);
    es := [e, ladder, detour];
    var t := PutAll(es).value;
    OverlayIsFine(es);
    assert e in es && ladder in es && detour in es;
    var rest := FollowsToLeaving(t, path, Up(path), parts);
    at := DetourGoesOut(t, q, f, |parts|, rest);
    assert Follows(t, Up(path), t[path].target, 2, at);
  }

  /** An accepted link can be led out of usr by other accepted entries exactly when its text can be redirected. */
  lemma {:induction false} LedOutExactly(path: Path, parts: Path)
    requires LinkOk(path, parts)
    ensures Redirectable(path, parts) <==> exists es, at :: CanLead(es, path, parts, at) && !InUsr(at)
  {
    hide CanLead, Redirectable, LinkOk, InUsr;
    if Redirectable(path, parts) {
      var es, at := CanBeLedOut(path, parts);
    } else {
      forall es, at | CanLead(es, path, parts, at) ensures InUsr(at) { NotRedirected(es, path, parts, at); }
    }
  }

  /** Two accepted links, and the second one leads out of usr: its text goes through the first. */
  lemma {:induction false} TwoLinksLeadOut()
    ensures var up, out := Link(["..", ".."]), Link(["a", "b", "s", "..", "etc"]);
      var es := [Entry(["usr", "a", "b", "s"], up), Entry(["usr", "t"], out)];
      Wanted(Symlink("../..", 0), "usr/a/b/s") == Some(es[0]) &&
      Wanted(Symlink("a/b/s/../etc", 0), "usr/t") == Some(es[1]) &&
      CanLead(es, ["usr", "t"], out.target, ["etc"])
  {
    hide PutAll, Wanted, LinkOk, Follows, Written;
    var s, up := ["usr", "a", "b", "s"], ["..", ".."];
    var p, out := ["usr", "t"], ["a", "b", "s", "..", "etc"];
    SampleOk();
    SampleWritten();
    WantedAsWritten(s, up);
    WantedAsWritten(p, out);
    var es := [Entry(s, Link(up)), Entry(p, Link(out))];
    assert s[1] != p[1];
    SamplePlaced(es[0], es[1]);
    assert es == [es[0], es[1]];
    OverlayIsFine(es);
    assert es[0] in es && es[1] in es;
    var t := PutAll(es).value;
    assert Up(p) == ["usr"];
    SampleFollows(t);
    assert Leads(t, p, ["etc"]);
    assert CanLead(es, p, out, ["etc"]);
  }

  lemma {:induction false} SampleOk()
    ensures LinkOk(["usr", "a", "b", "s"], ["..", ".."])
    ensures LinkOk(["usr", "t"], ["a", "b", "s", "..", "etc"])
  {
    hide Normal;
    SampleNormal();
    assert Up(["usr", "a", "b", "s"]) + ["..", ".."] == ["usr", "a", "b", "..", ".."];
    assert Up(["usr", "t"]) + ["a", "b", "s", "..", "etc"] == ["usr", "a", "b", "s", "..", "etc"];
  }

  lemma {:induction false} SampleNormal()
    ensures Normal([], ["usr", "a", "b", "..", ".."]) == ["usr"]
    ensures Normal([], ["usr", "a", "b", "s", "..", "etc"]) == ["usr", "a", "b", "etc"]
  {
    NormalFrom([], ["usr", "a", "b"], ["..", ".."]);
    NormalFrom([], ["usr", "a", "b", "s"], ["..", "etc"]);
    UpsNormal(["usr", "a", "b"], 2);
    assert ["usr", "a", "b"] + ["..", ".."] == ["usr", "a", "b", "..", ".."] && Ups(2) == ["..", ".."];
    assert ["usr", "a", "b", "s"] + ["..", "etc"] == ["usr", "a", "b", "s", "..", "etc"];
    assert ["..", "etc"][1..] == ["etc"] && ["etc"][1..] == [];
    assert Normal(["usr", "a", "b"], ["etc"]) == ["usr", "a", "b", "etc"];
  }

  lemma {:induction false} SampleWritten()
    ensures Written(["usr", "a", "b", "s"]) == "usr/a/b/s" && Written(["usr", "t"]) == "usr/t"
    ensures Written(["..", ".."]) == "../.." && Written(["a", "b", "s", "..", "etc"]) == "a/b/s/../etc"
  {
    WrittenTwo("usr", "t");
    WrittenTwo("..", "..");
    WrittenTwo("b", "s");
    WrittenTwo("..", "etc");
    WrittenMore("a", ["b", "s"]);
    WrittenMore("usr", ["a", "b", "s"]);
    WrittenMore("s", ["..", "etc"]);
    WrittenMore("b", ["s", "..", "etc"]);
    WrittenMore("a", ["b", "s", "..", "etc"]);
  }

  lemma {:induction false} WrittenMore(c: string, p: Path)
    requires p != []
    ensures Written([c] + p) == c + "/" + Written(p)
  {
    assert ([c] + p)[1..] == p;
  }

  lemma {:induction false} WrittenTwo(c: string, d: string)
    ensures Written([c, d]) == c + "/" + d
  {
    assert [c, d][1..] == [d];
  }

  lemma {:induction false} SamplePlaced(a: Entry, b: Entry)
    requires a.path != [] && b.path != [] && !(a.path <= b.path) && !(b.path <= a.path)
    ensures PutAll([a, b]).Some?
  {
    hide PutAll;
    PlacesCompatible([a, b]);
    assert multiset([a, b]) == multiset{a, b} && a != b;
  }

  lemma {:induction false} SampleFollows(t: Tree)
    requires Fine(t) && ["usr", "a", "b", "s"] in t && t[["usr", "a", "b", "s"]] == Link(["..", ".."])
    ensures Follows(t, ["usr"], ["a", "b", "s", "..", "etc"], 1, ["etc"])
  {
    var s, rest := ["usr", "a", "b", "s"], ["s", "..", "etc"];
    assert s[..2] == ["usr", "a"] && s[..3] == ["usr", "a", "b"];
    assert !IsLinkAt(t, ["usr", "a"]) && !IsLinkAt(t, ["usr", "a", "b"]) && !IsLinkAt(t, ["etc"]);
    hide Fine, IsLinkAt, Follows;
    SampleTurns(t);
    assert ["usr"] + ["a"] == ["usr", "a"] && ["usr", "a"] + ["b"] == ["usr", "a", "b"];
    NameFollowed(t, ["usr", "a"], "b", rest, 1, ["etc"]);
    NameFollowed(t, ["usr"], "a", ["b"] + rest, 1, ["etc"]);
    assert ["a"] + (["b"] + rest) == ["a", "b", "s", "..", "etc"];
  }

  lemma {:induction false} SampleTurns(t: Tree)
    requires ["usr", "a", "b", "s"] in t && t[["usr", "a", "b", "s"]] == Link(["..", ".."]) && !IsLinkAt(t, ["etc"])
    ensures Follows(t, ["usr", "a", "b"], ["s", "..", "etc"], 1, ["etc"])
  {
    hide IsLinkAt, Follows;
    var up, rest := ["usr", "a", "b"], ["..", "etc"];
    SampleClimb(t);
    UpsFollow(t, up, 2, rest, 0, ["etc"]);
    assert Ups(2) == ["..", ".."] && up[..1] == ["usr"];
    assert up + ["s"] == ["usr", "a", "b", "s"] && ["s", "..", "etc"][1..] == rest;
    LinkFollowed(t, up, ["s", "..", "etc"], 0, ["etc"]);
  }

  lemma {:induction false} SampleClimb(t: Tree)
    requires !IsLinkAt(t, ["etc"])
    ensures Follows(t, ["usr"], ["..", "etc"], 0, ["etc"])
  {
    hide IsLinkAt;
    assert [] + ["etc"] == ["etc"] && ["etc"][1..] == [] && ["..", "etc"][1..] == ["etc"];
    assert Follows(t, [], ["etc"], 0, ["etc"]);
  }

  lemma {:induction false} NameFollowed(t: Tree, cur: Path, c: string, rest: Path, hops: nat, at: Path)
    requires c != ".." && !IsLinkAt(t, cur + [c]) && Follows(t, cur + [c], rest, hops, at)
    ensures Follows(t, cur, [c] + rest, hops, at)
  {
    assert ([c] + rest)[1..] == rest;
  }
}

/** Building the overlay of a reference root, one entry at a time (reference.py). */
module Overlay {
  import opened Prelude

  // ---- Names ----

  /** The path's components, without the root. */
  type Path = seq<string>

  function Segment(s: string): (r: string)
    ensures r <= s && (|r| < |s| ==> s[|r|] == '/') && forall i :: 0 <= i < |r| ==> r[i] != '/'
  {
    if s == "" || s[0] == '/' then "" else [s[0]] + Segment(s[1..])
  }

  /** PurePosixPath(s).parts of a relative path: empty components and "." are dropped. */
  function Components(s: string): Path
    decreases |s|
  {
    if s == "" then []
    else if s[0] == '/' then Components(s[1..])
    else
      var c := Segment(s);
      (if c == "." then [] else [c]) + Components(s[|c|..])
  }

  /** str(PurePosixPath(...)) of a relative path. */
  function Written(p: Path): string {
    if p == [] then "." else if |p| == 1 then p[0] else p[0] + "/" + Written(p[1..])
  }

  function Trimmed(s: string): (r: string)
    ensures r <= s && (r == "" || r[|r| - 1] != '/') && forall i :: |r| <= i < |s| ==> s[i] == '/'
  {
    if s != "" && s[|s| - 1] == '/' then Trimmed(s[..|s| - 1]) else s
  }

  /** relative: the components of a name that may stand in the payload. */
  function Relative(name: string): Option<Path> {
    var p := Components(name);
    if name == "" || name[0] == '/' || ".." in p || Written(p) != Trimmed(name) || p == [] || p[0] != "usr" then None
    else Some(p)
  }

  predicate IsComponent(c: string) { c != "" && '/' !in c && c != "." && c != ".." }

  predicate UnderUsr(p: Path) { p != [] && p[0] == "usr" && forall i :: 0 <= i < |p| ==> IsComponent(p[i]) }

  predicate Slashes(s: string) { forall i :: 0 <= i < |s| ==> s[i] == '/' }

  lemma {:induction false} SegmentRead(c: string, rest: string)
    requires '/' !in c && (rest == "" || rest[0] == '/')
    ensures Segment(c + rest) == c
    decreases |c|
  {
    if c == "" {
      assert c + rest == rest;
    } else {
      SegmentRead(c[1..], rest);
      assert (c + rest)[1..] == c[1..] + rest;
    }
  }

  lemma {:induction false} NoComponents(s: string)
    requires Slashes(s)
    ensures Components(s) == []
  {
    if s != "" { NoComponents(s[1..]); }
  }

  lemma {:induction false} OneComponent(c: string, rest: string)
    requires IsComponent(c) && (rest == "" || rest[0] == '/')
    ensures Components(c + rest) == [c] + Components(rest)
  {
    SegmentRead(c, rest);
    assert (c + rest)[|c|..] == rest && (c + rest)[0] == c[0];
  }

  lemma {:induction false} SlashRead(s: string)
    ensures Components("/" + s) == Components(s)
  {
    assert ("/" + s)[1..] == s;
  }

  lemma {:induction false} WrittenRead(p: Path, tail: string)
    requires p != [] && (forall i :: 0 <= i < |p| ==> IsComponent(p[i])) && Slashes(tail)
    ensures Components(Written(p) + tail) == p
    decreases |p|
  {
    hide Segment, Components;
    if |p| == 1 {
      OneComponent(p[0], tail);
      NoComponents(tail);
    } else {
      var rest := Written(p[1..]) + tail;
      assert Written(p) + tail == p[0] + ("/" + rest);
      OneComponent(p[0], "/" + rest);
      SlashRead(rest);
      WrittenRead(p[1..], tail);
    }
  }

  lemma {:induction false} WrittenEnds(p: Path)
    requires p != [] && forall i :: 0 <= i < |p| ==> IsComponent(p[i])
    ensures var w := Written(p); w != "" && w[|w| - 1] != '/' && p[0] != "" && w[0] == p[0][0]
    decreases |p|
  {
    if |p| == 1 { assert p[0][|p[0]| - 1] in p[0]; } else { WrittenEnds(p[1..]); }
  }

  lemma {:induction false} ComponentsAre(s: string)
    ensures forall i :: 0 <= i < |Components(s)| ==>
      Components(s)[i] != "" && '/' !in Components(s)[i] && Components(s)[i] != "."
    decreases |s|
  {
    if s != "" {
      if s[0] == '/' { ComponentsAre(s[1..]); } else { ComponentsAre(s[|Segment(s)|..]); }
    }
  }

  lemma {:induction false} TrimmedIs(w: string, tail: string)
    requires Slashes(tail) && (w == "" || w[|w| - 1] != '/')
    ensures Trimmed(w + tail) == w
    decreases |tail|
  {
    if tail == "" {
      assert w + tail == w;
    } else {
      var k := |tail| - 1;
      var s := w + tail;
      TrimmedIs(w, tail[..k]);
      assert s[|s| - 1] == tail[k] == '/';
      assert s[..|s| - 1] == w + tail[..k];
    }
  }

  /** A name is accepted exactly when it is a plain path below usr, perhaps with slashes at its end. */
  lemma {:induction false} RelativeExactly(name: string, p: Path)
    ensures Relative(name) == Some(p) <==>
      UnderUsr(p) && Written(p) <= name && Slashes(name[|Written(p)|..])
  {
    if Relative(name) == Some(p) {
      ComponentsAre(name);
      forall i | 0 <= i < |p| ensures IsComponent(p[i]) { assert p[i] in p; }
      assert Written(p) == Trimmed(name);
    }
    if UnderUsr(p) && Written(p) <= name && Slashes(name[|Written(p)|..]) {
      var tail := name[|Written(p)|..];
      assert name == Written(p) + tail;
      WrittenRead(p, tail);
      WrittenEnds(p);
      TrimmedIs(Written(p), tail);
    }
  }

  // ---- Entries ----

  datatype Node = Dir | File(content: seq<byte>, mode: nat) | Link(target: Path)

  /** What lstat and readlink tell of an entry to copy. */
  datatype Source = Directory | Regular(content: seq<byte>, mode: nat) | Symlink(target: string, mode: nat) | Special

  datatype Refusal = UnsafeName | BadParent | DirectoryCollision | Unsupported | Collision | AbsoluteLink | EscapingLink

  datatype Entry = Entry(path: Path, node: Node)

  /** os.path.normpath of a relative path. */
  function Normal(done: Path, todo: Path): Path
    decreases |todo|
  {
    if todo == [] then done
    else if todo[0] == ".." && done != [] && done[|done| - 1] != ".." then Normal(done[..|done| - 1], todo[1..])
    else Normal(done + [todo[0]], todo[1..])
  }

  /** Set-user-id, set-group-id and sticky bits. */
  predicate IsPlain(mode: nat) { mode / 0x200 % 8 == 0 }

  function Permissions(mode: nat): nat { mode % 0x1000 }

  /** What a call of place asks for, whatever the tree already holds. */
  function Asked(source: Source, path: Path): Result<Node, Refusal>
    requires path != []
  {
    match source
    case Directory => Ok(Dir)
    case Regular(content, mode) => if IsPlain(mode) then Ok(File(content, Permissions(mode))) else Err(Unsupported)
    case Special => Err(Unsupported)
    case Symlink(target, mode) =>
      if !IsPlain(mode) then Err(Unsupported)
      else if target != "" && target[0] == '/' then Err(AbsoluteLink)
      else
        var parts := Components(target);
        var n := Normal([], path[..|path| - 1] + parts);
        if n == [] || n[0] != "usr" || ".." in n then Err(EscapingLink) else Ok(Link(parts))
  }

  /** The entry a call of place is to make. */
  function Wanted(source: Source, name: string): Option<Entry> {
    NotTheRoot(name);
    match Relative(name)
    case None => None
    case Some(path) => match Asked(source, path) case Err(_) => None case Ok(node) => Some(Entry(path, node))
  }

  lemma {:induction false} NotTheRoot(name: string)
    ensures Relative(name).Some? ==> Relative(name).value != []
  {
  }

  /** What stands in the overlay; the root itself is not listed. */
  type Tree = map<Path, Node>

  /** Every parent is a real directory, so no file or link has anything below it. */
  predicate Sound(t: Tree) {
    forall p :: p in t ==> p != [] && forall i :: 0 < i < |p| ==> p[..i] in t && t[p[..i]] == Dir
  }

  /** The parents of path, from its i-th on, made where they are missing. */
  function WithParents(t: Tree, path: Path, i: nat): Option<Tree>
    requires 0 < i
    decreases |path| - i
  {
    if i >= |path| then Some(t)
    else if path[..i] in t && t[path[..i]] != Dir then None
    else WithParents(t[path[..i] := Dir], path, i + 1)
  }

  predicate CanHold(t: Tree, e: Entry) {
    e.path in t ==> e.node == Dir && t[e.path] == Dir
  }

  /** The tree with one more entry, or None where it collides with what stands there. */
  function Put(t: Tree, e: Entry): Option<Tree> {
    match WithParents(t, e.path, 1)
    case None => None
    case Some(t') => if CanHold(t', e) then Some(t'[e.path := e.node]) else None
  }

  function PutAll(es: seq<Entry>): Option<Tree> {
    if es == [] then Some(map[])
    else
      match PutAll(es[..|es| - 1])
      case None => None
      case Some(t) => Put(t, es[|es| - 1])
  }

  class Root {
    var tree: Tree

    constructor ()
      ensures tree == map[]
    {
      tree := map[];
    }

    /** parent_safe. Parents made before a bad one is met stay. */
    method ParentSafe(path: Path) returns (ok: bool)
      modifies this
      ensures ok == WithParents(old(tree), path, 1).Some?
      ensures ok ==> tree == WithParents(old(tree), path, 1).value
      ensures forall p :: p in old(tree) ==> p in tree && tree[p] == old(tree)[p]
    {
      var i := 1;
      while i < |path|
        invariant 1 <= i
        invariant WithParents(old(tree), path, 1) == WithParents(tree, path, i)
        invariant forall p :: p in old(tree) ==> p in tree && tree[p] == old(tree)[p]
      {
        var p := path[..i];
        if p in tree && tree[p] != Dir { return false; }
        tree := tree[p := Dir];
        i := i + 1;
      }
      return true;
    }

    /** place: nothing that stands is ever changed, whether the call succeeds or not. */
    method Place(source: Source, name: string) returns (r: Result<(), Refusal>)
      modifies this
      ensures forall p :: p in old(tree) ==> p in tree && tree[p] == old(tree)[p]
      ensures r.Ok? <==> Wanted(source, name).Some? && Put(old(tree), Wanted(source, name).value).Some?
      ensures r.Ok? ==> Put(old(tree), Wanted(source, name).value) == Some(tree)
    {
      hide WithParents, Normal, Components, Relative;
      var rel := Relative(name);
      if rel.None? { return Err(UnsafeName); }
      var path := rel.value;
      NotTheRoot(name);
      var safe := ParentSafe(path);
      if !safe { return Err(BadParent); }
      if source.Directory? {
        if path in tree && tree[path] != Dir { return Err(DirectoryCollision); }
        tree := tree[path := Dir];
        return Ok(());
      }
      if source.Special? || !IsPlain(source.mode) { return Err(Unsupported); }
      if path in tree { return Err(Collision); }
      if source.Symlink? {
        if source.target != "" && source.target[0] == '/' { return Err(AbsoluteLink); }
        var parts := Components(source.target);
        var normalized := Normal([], path[..|path| - 1] + parts);
        if normalized == [] || normalized[0] != "usr" || ".." in normalized { return Err(EscapingLink); }
        tree := tree[path := Link(parts)];
        return Ok(());
      }
      tree := tree[path := File(source.content, Permissions(source.mode))];
      return Ok(());
    }
  }

  // ---- Any order builds the same tree ----

  type Entries = multiset<Entry>

  /** The entry puts something at p: itself, or a directory above it. */
  predicate Reaches(e: Entry, p: Path) { p != [] && |p| <= |e.path| && p == e.path[..|p|] }

  function NodeAt(e: Entry, p: Path): Node { if p == e.path then e.node else Dir }

  /** A file or link is placed once, and nothing else is placed at or below it. */
  ghost predicate Compatible(m: Entries) {
    forall e :: e in m && e.node != Dir ==> m[e] == 1 && forall f :: f in m && f != e ==> !Reaches(f, e.path)
  }

  /** The tree holds exactly the entries, and directories above them. */
  ghost predicate Built(t: Tree, m: Entries) {
    (forall e, p :: e in m && Reaches(e, p) ==> p in t && t[p] == NodeAt(e, p)) &&
    forall p :: p in t ==> exists e :: e in m && Reaches(e, p)
  }

  lemma {:induction false} ParentsMade(t: Tree, path: Path, i: nat)
    requires 0 < i
    ensures WithParents(t, path, i).Some? <==>
      forall j :: i <= j < |path| && path[..j] in t ==> t[path[..j]] == Dir
    ensures WithParents(t, path, i).Some? ==>
      var t' := WithParents(t, path, i).value;
      (forall j :: i <= j < |path| ==> path[..j] in t' && t'[path[..j]] == Dir) &&
      (forall p :: p in t ==> p in t' && t'[p] == t[p]) &&
      forall p :: p in t' && p !in t ==> |p| < |path| && i <= |p| && p == path[..|p|]
    decreases |path| - i
  {
    if i < |path| && !(path[..i] in t && t[path[..i]] != Dir) {
      ParentsMade(t[path[..i] := Dir], path, i + 1);
    }
  }

  /** What one entry adds to the tree. */
  ghost predicate Adds(t: Tree, e: Entry, t': Tree) {
    (forall p :: p in t ==> p in t' && t'[p] == t[p]) &&
    (forall p :: Reaches(e, p) ==> p in t' && t'[p] == NodeAt(e, p)) && forall p :: p in t' && p !in t ==> Reaches(e, p)
  }

  /** Nothing stands where the entry goes but a directory for a directory. */
  ghost predicate Fits(t: Tree, e: Entry) {
    forall p :: Reaches(e, p) && p in t ==> t[p] == Dir == NodeAt(e, p)
  }

  lemma {:induction false} PutAdds(t: Tree, e: Entry)
    requires e.path != []
    ensures Put(t, e).Some? <==> Fits(t, e)
    ensures Put(t, e).Some? ==> Adds(t, e, Put(t, e).value)
  {
    hide WithParents;
    ParentsMade(t, e.path, 1);
    assert e.path[..|e.path|] == e.path;
    forall j | 0 < j <= |e.path| ensures Reaches(e, e.path[..j]) && (j < |e.path| ==> e.path[..j] != e.path) {
      assert |e.path[..j]| == j;
    }
    if WithParents(t, e.path, 1).Some? {
      var t' := WithParents(t, e.path, 1).value;
      assert e.path in t' <==> e.path in t;
      if CanHold(t', e) {
        var t2 := t'[e.path := e.node];
        assert Put(t, e) == Some(t2);
        forall p | Reaches(e, p) ensures p in t2 && t2[p] == NodeAt(e, p) { assert p == e.path[..|p|]; }
      }
    }
  }

  lemma {:induction false} FitsWhenCompatible(t: Tree, m: Entries, e: Entry)
    requires Built(t, m) && Compatible(m) && e.path != [] && Fits(t, e)
    requires forall f :: f in m ==> f.path != []
    ensures Compatible(m + multiset{e})
  {
    hide Compatible, Built, Fits;
    ReachesItself(e);
    forall f | f in m && f.node != Dir ensures !Reaches(e, f.path) {
      ReachesItself(f);
      NodeOf(t, m, f, f.path);
      FitsAt(t, e, f.path);
    }
    forall f | f in m && e.node != Dir ensures !Reaches(f, e.path) {
      if Reaches(f, e.path) {
        NodeOf(t, m, f, e.path);
        FitsAt(t, e, e.path);
      }
    }
    OneMoreCompatible(m, e);
  }

  lemma {:induction false} ReachesItself(e: Entry)
    requires e.path != []
    ensures Reaches(e, e.path) && NodeAt(e, e.path) == e.node
  {
  }

  lemma {:induction false} FitsAt(t: Tree, e: Entry, p: Path)
    requires Fits(t, e)
    ensures Reaches(e, p) && p in t ==> t[p] == Dir == NodeAt(e, p)
  {
    hide Reaches, NodeAt;
  }

  lemma {:induction false} OneMoreCompatible(m: Entries, e: Entry)
    requires Compatible(m) && Reaches(e, e.path)
    requires forall f :: f in m && f.node != Dir ==> !Reaches(e, f.path)
    requires forall f :: f in m && e.node != Dir ==> !Reaches(f, e.path)
    ensures Compatible(m + multiset{e})
  {
    hide Reaches;
    var all := m + multiset{e};
    assert forall f :: f in all ==> all[f] == m[f] + (if f == e then 1 else 0);
    assert e.node != Dir ==> e !in m;
  }

  lemma {:induction false} CompatibleFits(t: Tree, m: Entries, e: Entry)
    requires Built(t, m) && Compatible(m + multiset{e})
    ensures Fits(t, e)
  {
    var all := m + multiset{e};
    assert forall f :: f in m ==> f in all && all[f] == m[f] + if f == e then 1 else 0;
    hide Reaches;
    forall p | Reaches(e, p) && p in t ensures t[p] == Dir == NodeAt(e, p) {
      var f :| f in m && Reaches(f, p);
      assert t[p] == NodeAt(f, p);
      assert e in all && f in all;
    }
  }

  lemma {:induction false} StaysBuilt(t: Tree, m: Entries, e: Entry, t': Tree)
    requires Built(t, m) && Adds(t, e, t')
    ensures Built(t', m + multiset{e})
  {
    hide Reaches, NodeAt;
    var all := m + multiset{e};
    forall p | p in t' ensures exists f :: f in all && Reaches(f, p) {
      if p in t {
        var f :| f in m && Reaches(f, p);
        assert f in all;
      } else {
        assert e in all;
      }
    }
  }

  predicate Rooted(es: seq<Entry>) { forall i :: 0 <= i < |es| ==> es[i].path != [] }

  /** Entries can be placed one after another exactly when they are compatible, and then the tree is theirs. */
  lemma {:induction false} PlacesCompatible(es: seq<Entry>)
    requires Rooted(es)
    ensures PutAll(es).Some? <==> Compatible(multiset(es))
    ensures PutAll(es).Some? ==> Built(PutAll(es).value, multiset(es))
    decreases |es|
  {
    hide Put, Compatible, Built, Fits, Adds;
    if es == [] {
      NothingBuilt();
    } else {
      var k := |es| - 1;
      var before, e := es[..k], es[k];
      assert es == before + [e];
      var m := multiset(before);
      assert multiset(es) == m + multiset{e};
      PlacesCompatible(before);
      if Compatible(multiset(es)) { FewerCompatible(m, e); }
      if PutAll(before).Some? {
        var t := PutAll(before).value;
        PutAdds(t, e);
        if Fits(t, e) {
          RootedAll(before);
          FitsWhenCompatible(t, m, e);
          StaysBuilt(t, m, e, Put(t, e).value);
        }
        if Compatible(multiset(es)) { CompatibleFits(t, m, e); }
      }
    }
  }

  lemma {:induction false} RootedAll(es: seq<Entry>)
    requires Rooted(es)
    ensures forall f :: f in multiset(es) ==> f.path != []
  {
    forall f | f in multiset(es) ensures f.path != [] { assert f in es; }
  }

  lemma {:induction false} NothingBuilt()
    ensures Compatible(multiset{}) && Built(map[], multiset{})
  {
  }

  lemma {:induction false} FewerCompatible(m: Entries, e: Entry)
    requires Compatible(m + multiset{e})
    ensures Compatible(m)
  {
    hide Reaches;
    var all := m + multiset{e};
    assert forall f :: f in m ==> f in all && all[f] >= m[f];
  }

  lemma {:induction false} BuiltIsUnique(t: Tree, t': Tree, m: Entries)
    requires Built(t, m) && Built(t', m)
    ensures t == t'
  {
    hide Reaches, NodeAt;
    assert forall p :: p in t ==> p in t' && t[p] == t'[p];
    assert forall p :: p in t' ==> p in t;
  }

  lemma {:induction false} BuiltIsSound(t: Tree, m: Entries)
    requires Built(t, m)
    ensures Sound(t)
  {
    hide Built;
    forall p | p in t ensures p != [] && forall i :: 0 < i < |p| ==> p[..i] in t && t[p[..i]] == Dir {
      var e := EntryAt(t, m, p);
      forall i | 0 < i < |p| ensures p[..i] in t && t[p[..i]] == Dir {
        assert p[..i] == e.path[..i] && |p[..i]| == i;
        NodeOf(t, m, e, p[..i]);
      }
    }
  }

  lemma {:induction false} EntryAt(t: Tree, m: Entries, p: Path) returns (e: Entry)
    requires Built(t, m) && p in t
    ensures e in m && Reaches(e, p) && t[p] == NodeAt(e, p)
  {
    hide Reaches, NodeAt;
    e :| e in m && Reaches(e, p);
  }

  lemma {:induction false} NodeOf(t: Tree, m: Entries, e: Entry, p: Path)
    requires Built(t, m) && e in m && Reaches(e, p)
    ensures p in t && t[p] == NodeAt(e, p)
  {
    hide Reaches, NodeAt;
  }

  /** Whatever order the same entries are placed in, they are placed or refused alike and build the same tree. In it
      every parent is a directory, and every file and link is the one entry placed there. */
  lemma {:induction false} AnyOrder(es: seq<Entry>, fs: seq<Entry>)
    requires Rooted(es) && multiset(es) == multiset(fs)
    ensures PutAll(es) == PutAll(fs)
    ensures PutAll(es).Some? ==> Sound(PutAll(es).value) && OncePlaced(PutAll(es).value, multiset(es))
  {
    hide PutAll, Sound, Compatible, Built;
    assert Rooted(fs) by {
      RootedAll(es);
      forall i | 0 <= i < |fs| ensures fs[i].path != [] { assert fs[i] in multiset(fs); }
    }
    PlacesCompatible(es);
    PlacesCompatible(fs);
    if PutAll(es).Some? {
      var t := PutAll(es).value;
      BuiltIsUnique(t, PutAll(fs).value, multiset(es));
      BuiltIsSound(t, multiset(es));
      BuiltIsOnce(t, multiset(es));
    }
  }

  /** Every file and link of the tree is an entry, placed once. */
  ghost predicate OncePlaced(t: Tree, m: Entries) {
    forall p :: p in t && t[p] != Dir ==> m[Entry(p, t[p])] == 1
  }

  lemma {:induction false} BuiltIsOnce(t: Tree, m: Entries)
    requires Built(t, m) && Compatible(m)
    ensures OncePlaced(t, m)
  {
    hide Built, Reaches;
    forall p | p in t && t[p] != Dir ensures m[Entry(p, t[p])] == 1 {
      var e := EntryAt(t, m, p);
      assert e == Entry(p, t[p]);
    }
  }
}

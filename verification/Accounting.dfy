/** Assigning WHENCE's files and links to families and accounting for their licences (sort-firmware.py, assign,
    derive and account). */
module Accounting {
  import opened Prelude
  import opened Whence

  /** One table of families.toml: `drivers` says whether a driver pattern matches the name in a Driver: line, `paths`
      whether a path pattern matches, and `declared` holds the terms of its SPDX expression. */
  datatype Family = Family(name: string, drivers: string -> bool, paths: string -> bool, declared: set<string>)

  const IGNORE := "<ignore>"

  /** `texts` are the licence texts upstream carries; `resolve` gives the path a link's relative target names. */
  datatype Config = Config(
    fams: seq<Family>, ids: map<string, string>, texts: set<string>, resolve: (string, string) -> string)

  /** A path some block lists; a link carries its target as written. */
  datatype Listing = Listing(entry: nat, path: string, target: Option<string>)

  function FileListings(e: Entry, k: nat): seq<Listing> {
    seq(|e.files|, i requires 0 <= i < |e.files| => Listing(k, e.files[i], None))
  }

  function LinkListings(e: Entry, k: nat): seq<Listing> {
    seq(|e.links|, i requires 0 <= i < |e.links| => Listing(k, e.links[i].0, Some(e.links[i].1)))
  }

  /** Everything the first n blocks list, in the order assign visits it: a block's files, then its links. */
  function Listings(entries: seq<Entry>, n: nat): seq<Listing>
    requires n <= |entries|
  {
    if n == 0 then []
    else Listings(entries, n - 1) + FileListings(entries[n - 1], n - 1) + LinkListings(entries[n - 1], n - 1)
  }

  // ---- Who owns a path ----

  function FirstFamily(fams: seq<Family>, test: Family -> bool): (name: Option<string>)
    ensures name.Some? <==> exists i :: 0 <= i < |fams| && test(fams[i])
  {
    if fams == [] then None
    else if test(fams[0]) then Some(fams[0].name)
    else
      var rest := FirstFamily(fams[1..], test);
      assert rest.None? ==> forall i :: 0 < i < |fams| ==> fams[i] == fams[1..][i - 1];
      rest
  }

  function ByPath(cfg: Config, path: string): Option<string> {
    FirstFamily(cfg.fams, (f: Family) => f.paths(path))
  }

  function ByDriver(cfg: Config, driver: string): Option<string> {
    FirstFamily(cfg.fams, (f: Family) => f.drivers(driver))
  }

  /** The first family with a matching path pattern, else the first with a matching driver pattern. */
  function ByPattern(cfg: Config, entries: seq<Entry>, l: Listing): Option<string>
    requires l.entry < |entries|
  {
    if ByPath(cfg, l.path).Some? then ByPath(cfg, l.path) else ByDriver(cfg, entries[l.entry].driver)
  }

  predicate InRange(entries: seq<Entry>, ls: seq<Listing>) {
    forall i :: 0 <= i < |ls| ==> ls[i].entry < |entries|
  }

  function TargetPath(cfg: Config, l: Listing): string
    requires l.target.Some?
  {
    cfg.resolve(l.path, l.target.value)
  }

  /** The family that takes listing l after the listings `before`: a link follows its target's family. */
  function Claim(cfg: Config, entries: seq<Entry>, before: seq<Listing>, l: Listing): Option<string>
    requires InRange(entries, before) && l.entry < |entries|
    decreases |before|, 1
  {
    if l.target.Some? && Owner(cfg, entries, before, TargetPath(cfg, l)).Some?
    then Owner(cfg, entries, before, TargetPath(cfg, l))
    else ByPattern(cfg, entries, l)
  }

  /** The family that last took the path among `ls`. */
  function Owner(cfg: Config, entries: seq<Entry>, ls: seq<Listing>, path: string): Option<string>
    requires InRange(entries, ls)
    decreases |ls|, 0
  {
    if ls == [] then None
    else
      var l, before := ls[|ls| - 1], ls[..|ls| - 1];
      if l.path == path && Claim(cfg, entries, before, l).Some? then Claim(cfg, entries, before, l)
      else Owner(cfg, entries, before, path)
  }

  // ---- What a listing brings its family ----

  /** What a family's licence set holds: an item, or a note that a link relies on its target. */
  datatype Mark = Held(item: Item) | Linked(target: string)

  function Hold(items: set<Item>): set<Mark> { set i | i in items :: Held(i) }

  /** The items a block gives a listing: its own, or for a link without any, its target's in the same block. */
  function CitedItems(cfg: Config, entries: seq<Entry>, l: Listing): set<Item>
    requires l.entry < |entries|
  {
    var own := ItemsOf(entries[l.entry], l.path);
    if own == {} && l.target.Some? then ItemsOf(entries[l.entry], TargetPath(cfg, l)) else own
  }

  function Marks(cfg: Config, entries: seq<Entry>, before: seq<Listing>, l: Listing): set<Mark>
    requires InRange(entries, before) && l.entry < |entries|
  {
    var cited := CitedItems(cfg, entries, l);
    if cited == {} && l.target.Some? && Claim(cfg, entries, before, l).Some? &&
       Owner(cfg, entries, before, TargetPath(cfg, l)) == Claim(cfg, entries, before, l)
    then {Linked(TargetPath(cfg, l))}
    else Hold(cited)
  }

  datatype Got = Got(
    files: set<string>, links: seq<(string, string)>, items: set<Mark>, sections: seq<nat>, unlicensed: seq<string>)

  const NOTHING := Got({}, [], {}, [], [])

  /** A family after taking one more listing. */
  function Add(g: Got, section: nat, l: Listing, marks: set<Mark>): Got {
    Got(
      if l.target.None? then g.files + {l.path} else g.files,
      if l.target.Some? then g.links + [(l.path, l.target.value)] else g.links,
      g.items + marks,
      if g.sections == [] || g.sections[|g.sections| - 1] != section then g.sections + [section] else g.sections,
      if marks == {} then g.unlicensed + [l.path] else g.unlicensed)
  }

  function GotBy(cfg: Config, entries: seq<Entry>, ls: seq<Listing>, fam: string): Got
    requires InRange(entries, ls)
  {
    if ls == [] then NOTHING
    else
      var l, before := ls[|ls| - 1], ls[..|ls| - 1];
      var g := GotBy(cfg, entries, before, fam);
      if Claim(cfg, entries, before, l) == Some(fam)
      then Add(g, entries[l.entry].section, l, Marks(cfg, entries, before, l))
      else g
  }

  ghost predicate Takes(cfg: Config, entries: seq<Entry>, ls: seq<Listing>, fam: string, n: nat)
    requires InRange(entries, ls)
  {
    n < |ls| && Claim(cfg, entries, ls[..n], ls[n]) == Some(fam)
  }

  ghost predicate Taken(cfg: Config, entries: seq<Entry>, ls: seq<Listing>, fam: string)
    requires InRange(entries, ls)
  {
    exists n: nat :: Takes(cfg, entries, ls, fam, n)
  }

  function UnclaimedOf(cfg: Config, entries: seq<Entry>, ls: seq<Listing>): seq<Listing>
    requires InRange(entries, ls)
  {
    if ls == [] then []
    else
      var l, before := ls[|ls| - 1], ls[..|ls| - 1];
      UnclaimedOf(cfg, entries, before) + if Claim(cfg, entries, before, l).None? then [l] else []
  }

  lemma {:induction false} TakenSnoc(cfg: Config, entries: seq<Entry>, ls: seq<Listing>, l: Listing, fam: string)
    requires InRange(entries, ls) && l.entry < |entries|
    ensures Taken(cfg, entries, ls + [l], fam) <==>
      Taken(cfg, entries, ls, fam) || Claim(cfg, entries, ls, l) == Some(fam)
  {
    var more := ls + [l];
    forall n: nat | n < |ls| ensures Takes(cfg, entries, more, fam, n) <==> Takes(cfg, entries, ls, fam, n) {
      assert more[..n] == ls[..n];
    }
    assert more[..|ls|] == ls;
    assert Takes(cfg, entries, more, fam, |ls|) <==> Claim(cfg, entries, ls, l) == Some(fam);
    if Taken(cfg, entries, ls, fam) {
      var n: nat :| Takes(cfg, entries, ls, fam, n);
      assert Takes(cfg, entries, more, fam, n);
    }
    if Taken(cfg, entries, more, fam) {
      var n: nat :| Takes(cfg, entries, more, fam, n);
      assert n == |ls| || Takes(cfg, entries, ls, fam, n);
    }
  }

  /** What one more listing changes: for each path its owner, for each family what it got, and what is unclaimed. */
  lemma {:induction false} OneMore(cfg: Config, entries: seq<Entry>, ls: seq<Listing>, l: Listing, fam: string,
      path: string)
    requires InRange(entries, ls) && l.entry < |entries|
    ensures var claim := Claim(cfg, entries, ls, l);
      Owner(cfg, entries, ls + [l], path) ==
        (if claim.Some? && l.path == path then claim else Owner(cfg, entries, ls, path)) &&
      GotBy(cfg, entries, ls + [l], fam) ==
        (if claim == Some(fam)
         then Add(GotBy(cfg, entries, ls, fam), entries[l.entry].section, l, Marks(cfg, entries, ls, l))
         else GotBy(cfg, entries, ls, fam)) &&
      UnclaimedOf(cfg, entries, ls + [l]) ==
        UnclaimedOf(cfg, entries, ls) + (if claim.None? then [l] else [])
  {
    hide Claim, Marks, Add;
    assert (ls + [l])[..|ls|] == ls;
  }

  /** assign, over the dictionaries it fills. */
  class Assigner {
    const cfg: Config
    const entries: seq<Entry>
    var out: map<string, Got>
    var fileOwner: map<string, string>
    var unclaimed: seq<Listing>
    ghost var done: seq<Listing>

    constructor (cfg: Config, entries: seq<Entry>)
      ensures this.cfg == cfg && this.entries == entries
      ensures Valid() && done == []
    {
      this.cfg, this.entries := cfg, entries;
      out, fileOwner, unclaimed, done := map[], map[], [], [];
      new;
      forall fam ensures !Taken(cfg, entries, [], fam) { }
    }

    ghost predicate Owned()
      requires InRange(entries, done)
      reads this
    {
      forall p :: Owner(cfg, entries, done, p) == if p in fileOwner then Some(fileOwner[p]) else None
    }

    ghost predicate Filled()
      requires InRange(entries, done)
      reads this
    {
      forall fam ::
        (fam in out <==> Taken(cfg, entries, done, fam)) &&
        GotBy(cfg, entries, done, fam) == if fam in out then out[fam] else NOTHING
    }

    ghost predicate Valid()
      reads this
    {
      InRange(entries, done) && Owned() && Filled() && unclaimed == UnclaimedOf(cfg, entries, done)
    }

    function Lookup(path: string): Option<string>
      reads this
    {
      if path in fileOwner then Some(fileOwner[path]) else None
    }

    /** The family takes the listing with these marks. */
    method Take(fam: string, l: Listing, marks: set<Mark>)
      requires Valid() && l.entry < |entries|
      requires Claim(cfg, entries, done, l) == Some(fam) && marks == Marks(cfg, entries, done, l)
      modifies this
      ensures Valid() && done == old(done) + [l]
    {
      hide Claim, Owner, Marks, GotBy, UnclaimedOf, Taken, Add;
      var got := if fam in out then out[fam] else NOTHING;
      forall f { TakenSnoc(cfg, entries, done, l, f); }
      forall f { OneMore(cfg, entries, done, l, f, ""); }
      forall p { OneMore(cfg, entries, done, l, fam, p); }
      OneMore(cfg, entries, done, l, fam, "");
      out := out[fam := Add(got, entries[l.entry].section, l, marks)];
      fileOwner := fileOwner[l.path := fam];
      done := done + [l];
    }

    method Skip(l: Listing)
      requires Valid() && l.entry < |entries|
      requires Claim(cfg, entries, done, l).None?
      modifies this
      ensures Valid() && done == old(done) + [l]
    {
      hide Claim, Owner, Marks, GotBy, UnclaimedOf, Taken, Add;
      forall f { TakenSnoc(cfg, entries, done, l, f); }
      forall f { OneMore(cfg, entries, done, l, f, ""); }
      forall p { OneMore(cfg, entries, done, l, "", p); }
      OneMore(cfg, entries, done, l, "", "");
      unclaimed := unclaimed + [l];
      done := done + [l];
    }

    method AssignFile(idx: nat, f: string, whole: Option<string>)
      requires Valid() && idx < |entries| && whole == ByDriver(cfg, entries[idx].driver)
      modifies this
      ensures Valid() && done == old(done) + [Listing(idx, f, None)]
    {
      var l := Listing(idx, f, None);
      var owner := ByPath(cfg, f);
      if owner.None? { owner := whole; }
      if owner.None? {
        Skip(l);
      } else {
        Take(owner.value, l, Hold(ItemsOf(entries[idx], f)));
      }
    }

    method AssignLink(idx: nat, link: string, target: string, whole: Option<string>)
      requires Valid() && idx < |entries| && whole == ByDriver(cfg, entries[idx].driver)
      modifies this
      ensures Valid() && done == old(done) + [Listing(idx, link, Some(target))]
    {
      var l := Listing(idx, link, Some(target));
      var tpath := cfg.resolve(link, target);
      var owner := Lookup(tpath);
      if owner.None? {
        owner := ByPath(cfg, link);
        if owner.None? { owner := whole; }
      }
      if owner.None? {
        Skip(l);
        return;
      }
      // Without a licence of its own a link has its target's.
      var items := ItemsOf(entries[idx], link);
      if items == {} { items := ItemsOf(entries[idx], tpath); }
      var marks := Hold(items);
      if items == {} && Lookup(tpath) == owner {
        marks := {Linked(tpath)};
      }
      Take(owner.value, l, marks);
    }

    method Assign()
      requires Valid() && done == []
      modifies this
      ensures done == Listings(entries, |entries|) && InRange(entries, done)
      ensures Owned() && unclaimed == UnclaimedOf(cfg, entries, done)
      ensures forall fam :: fam in out <==> Taken(cfg, entries, done, fam)
      ensures forall fam :: fam in out ==>
        var g := GotBy(cfg, entries, done, fam);
        out[fam] == g.(items := set m | m in g.items && m.Held?)
    {
      var idx := 0;
      while idx < |entries|
        invariant idx <= |entries| && Valid() && done == Listings(entries, idx)
      {
        AssignBlock(idx);
        idx := idx + 1;
      }
      DropNotes();
    }

    /** One block: its files, then its links. */
    method AssignBlock(idx: nat)
      requires Valid() && idx < |entries|
      modifies this
      ensures Valid() && done == old(done) + FileListings(entries[idx], idx) + LinkListings(entries[idx], idx)
    {
      hide Valid;
      var e := entries[idx];
      var whole := ByDriver(cfg, e.driver);
      var j := 0;
      while j < |e.files|
        invariant 0 <= j <= |e.files| && Valid()
        invariant done == old(done) + FileListings(e, idx)[..j]
      {
        AssignFile(idx, e.files[j], whole);
        j := j + 1;
      }
      assert FileListings(e, idx)[..j] == FileListings(e, idx);
      j := 0;
      while j < |e.links|
        invariant 0 <= j <= |e.links| && Valid()
        invariant done == old(done) + FileListings(e, idx) + LinkListings(e, idx)[..j]
      {
        AssignLink(idx, e.links[j].0, e.links[j].1, whole);
        j := j + 1;
      }
      assert LinkListings(e, idx)[..j] == LinkListings(e, idx);
    }

    /** The notes that a link relies on its target are not licences. */
    method DropNotes()
      modifies `out
      ensures out.Keys == old(out).Keys
      ensures forall fam :: fam in out ==>
        out[fam] == old(out)[fam].(items := set m | m in old(out)[fam].items && m.Held?)
    {
      var todo := out.Keys;
      ghost var full := out;
      while todo != {}
        invariant todo <= out.Keys == full.Keys
        invariant forall fam :: fam in out ==>
          out[fam] == if fam in todo then full[fam] else full[fam].(items := set m | m in full[fam].items && m.Held?)
      {
        var fam :| fam in todo;
        out := out[fam := out[fam].(items := set m | m in out[fam].items && m.Held?)];
        todo := todo - {fam};
      }
    }
  }

  // ---- What a family holds, listing by listing ----

  /** The n-th listing brings the family the mark. */
  ghost predicate Brings(cfg: Config, entries: seq<Entry>, ls: seq<Listing>, fam: string, n: nat, m: Mark)
    requires InRange(entries, ls)
  {
    Takes(cfg, entries, ls, fam, n) && m in Marks(cfg, entries, ls[..n], ls[n])
  }

  /** The family takes the path by the n-th listing and gets no licence with it. */
  ghost predicate Bares(cfg: Config, entries: seq<Entry>, ls: seq<Listing>, fam: string, n: nat, p: string)
    requires InRange(entries, ls)
  {
    Takes(cfg, entries, ls, fam, n) && ls[n].path == p && Marks(cfg, entries, ls[..n], ls[n]) == {}
  }

  ghost predicate TakesLink(cfg: Config, entries: seq<Entry>, ls: seq<Listing>, fam: string, n: nat, p: string,
      t: string)
    requires InRange(entries, ls)
  {
    Takes(cfg, entries, ls, fam, n) && ls[n].path == p && ls[n].target == Some(t)
  }

  ghost predicate Loses(cfg: Config, entries: seq<Entry>, ls: seq<Listing>, n: nat, l: Listing)
    requires InRange(entries, ls)
  {
    n < |ls| && ls[n] == l && Claim(cfg, entries, ls[..n], ls[n]).None?
  }

  /** A family's record says exactly what its listings brought it, one listing at a time. */
  lemma {:induction false} GotByTaking(cfg: Config, entries: seq<Entry>, ls: seq<Listing>, fam: string)
    requires InRange(entries, ls)
    ensures forall m ::
      m in GotBy(cfg, entries, ls, fam).items <==> exists n: nat :: Brings(cfg, entries, ls, fam, n, m)
    ensures forall p ::
      p in GotBy(cfg, entries, ls, fam).unlicensed <==> exists n: nat :: Bares(cfg, entries, ls, fam, n, p)
    ensures forall p, t :: (p, t) in GotBy(cfg, entries, ls, fam).links <==>
      exists n: nat :: TakesLink(cfg, entries, ls, fam, n, p, t)
  {
    if ls != [] {
      var k := |ls| - 1;
      GotByTaking(cfg, entries, ls[..k], fam);
      ShorterTakes(cfg, entries, ls, fam);
      assert forall n: nat :: n < k ==> ls[..k][..n] == ls[..n];
      assert Takes(cfg, entries, ls, fam, k) <==> Claim(cfg, entries, ls[..k], ls[k]) == Some(fam);
      forall m
        ensures m in GotBy(cfg, entries, ls, fam).items <==> exists n: nat :: Brings(cfg, entries, ls, fam, n, m)
      {
        if n: nat :| Brings(cfg, entries, ls, fam, n, m) { assert n == k || Brings(cfg, entries, ls[..k], fam, n, m); }
        if n: nat :| Brings(cfg, entries, ls[..k], fam, n, m) { assert Brings(cfg, entries, ls, fam, n, m); }
        assert Brings(cfg, entries, ls, fam, k, m) ==> Takes(cfg, entries, ls, fam, k);
      }
      forall p
        ensures p in GotBy(cfg, entries, ls, fam).unlicensed <==> exists n: nat :: Bares(cfg, entries, ls, fam, n, p)
      {
        if n: nat :| Bares(cfg, entries, ls, fam, n, p) { assert n == k || Bares(cfg, entries, ls[..k], fam, n, p); }
        if n: nat :| Bares(cfg, entries, ls[..k], fam, n, p) { assert Bares(cfg, entries, ls, fam, n, p); }
        assert Bares(cfg, entries, ls, fam, k, p) ==> Takes(cfg, entries, ls, fam, k);
      }
      forall p, t ensures (p, t) in GotBy(cfg, entries, ls, fam).links <==>
                     exists n: nat :: TakesLink(cfg, entries, ls, fam, n, p, t) {
        if n: nat :| TakesLink(cfg, entries, ls, fam, n, p, t) {
          assert n == k || TakesLink(cfg, entries, ls[..k], fam, n, p, t);
        }
        if n: nat :| TakesLink(cfg, entries, ls[..k], fam, n, p, t) {
          assert TakesLink(cfg, entries, ls, fam, n, p, t);
        }
        assert TakesLink(cfg, entries, ls, fam, k, p, t) ==> Takes(cfg, entries, ls, fam, k);
      }
    }
  }

  lemma {:induction false} ShorterTakes(cfg: Config, entries: seq<Entry>, ls: seq<Listing>, fam: string)
    requires InRange(entries, ls) && ls != []
    ensures forall n: nat :: n < |ls| - 1 ==>
      (Takes(cfg, entries, ls[..|ls| - 1], fam, n) <==> Takes(cfg, entries, ls, fam, n))
  {
    forall n: nat | n < |ls| - 1
      ensures Takes(cfg, entries, ls[..|ls| - 1], fam, n) <==> Takes(cfg, entries, ls, fam, n)
    {
      assert ls[..|ls| - 1][..n] == ls[..n];
    }
  }

  lemma {:induction false} UnclaimedAreLost(cfg: Config, entries: seq<Entry>, ls: seq<Listing>, l: Listing)
    requires InRange(entries, ls)
    ensures l in UnclaimedOf(cfg, entries, ls) <==> exists n: nat :: Loses(cfg, entries, ls, n, l)
  {
    if ls != [] {
      var k := |ls| - 1;
      UnclaimedAreLost(cfg, entries, ls[..k], l);
      assert forall n: nat :: n < k ==> ls[..k][..n] == ls[..n];
      assert Loses(cfg, entries, ls, k, l) <==> ls[k] == l && Claim(cfg, entries, ls[..k], ls[k]).None?;
      if n: nat :| Loses(cfg, entries, ls, n, l) { assert n == k || Loses(cfg, entries, ls[..k], n, l); }
      if n: nat :| Loses(cfg, entries, ls[..k], n, l) { assert Loses(cfg, entries, ls, n, l); }
    }
  }

  // ---- The account ----

  datatype Issue =
    | Parse(problem: Problem)
    | Unclaimed(listing: Listing)
    | Unlicensed(fam: string, path: string)
    | Unmapped(fam: string, text: string)
    | MissingText(fam: string, text: string)
    | WrongLicence(fam: string)
    | UnusedId(text: string)
    | Crosses(fam: string, link: string, target: string)
    | MatchesNothing(fam: string)

  predicate IsNotice(text: string) { "NOTICE." <= text }

  predicate IsVendor(text: string) { !IsNotice(text) && ("LICENCE." <= text || "LICENSE." <= text) }

  function TextsIn(items: set<Mark>): set<string> {
    set m | m in items && m.Held? && m.item.Text? :: m.item.name
  }

  /** The SPDX terms of a licence set: one per mapped vendor text, and those of worded declarations. */
  function TermsIn(ids: map<string, string>, items: set<Mark>): set<string> {
    (set m | m in items && m.Held? && m.item.Term? :: m.item.spdx) +
    (set t | t in TextsIn(items) && IsVendor(t) && t in ids :: ids[t])
  }

  function DeclaredBy(fams: seq<Family>, fam: string): set<string> {
    if fams == [] then {} else if fams[0].name == fam then fams[0].declared else DeclaredBy(fams[1..], fam)
  }

  /** What is wrong with a release, whatever order it is found in. */
  ghost predicate IsIssue(cfg: Config, entries: seq<Entry>, parsed: seq<Problem>, i: Issue) {
    var ls := Listings(entries, |entries|);
    InRange(entries, ls) &&
    match i
    case Parse(p) => p in parsed
    case Unclaimed(l) => exists n: nat :: Loses(cfg, entries, ls, n, l)
    case Unlicensed(fam, p) => fam != IGNORE && exists n: nat :: Bares(cfg, entries, ls, fam, n, p)
    case Unmapped(fam, t) => Cites(cfg, entries, ls, fam, t) && IsVendor(t) && t !in cfg.ids
    case MissingText(fam, t) => Cites(cfg, entries, ls, fam, t) && t !in cfg.texts
    case WrongLicence(fam) =>
      fam != IGNORE && Taken(cfg, entries, ls, fam) &&
      DeclaredBy(cfg.fams, fam) != TermsIn(cfg.ids, GotBy(cfg, entries, ls, fam).items)
    case UnusedId(t) => t in cfg.ids && forall fam :: !Cites(cfg, entries, ls, fam, t)
    case Crosses(fam, p, t) =>
      (exists n: nat :: TakesLink(cfg, entries, ls, fam, n, p, t)) &&
      Owner(cfg, entries, ls, cfg.resolve(p, t)).Some? &&
      Owner(cfg, entries, ls, cfg.resolve(p, t)) != Some(fam)
    case MatchesNothing(fam) =>
      fam != IGNORE && (exists k :: 0 <= k < |cfg.fams| && cfg.fams[k].name == fam) && !Taken(cfg, entries, ls, fam)
  }

  /** A packaged family takes something that cites the text. */
  ghost predicate Cites(cfg: Config, entries: seq<Entry>, ls: seq<Listing>, fam: string, text: string)
    requires InRange(entries, ls)
  {
    fam != IGNORE && Taken(cfg, entries, ls, fam) && Held(Text(text)) in GotBy(cfg, entries, ls, fam).items
  }

  /** derive: the texts and terms of one family's licence set. */
  method Derive(items: set<Mark>, ids: map<string, string>, fam: string)
    returns (texts: set<string>, terms: set<string>, problems: seq<Issue>)
    ensures texts == TextsIn(items) && terms == TermsIn(ids, items)
    ensures forall i :: i in problems <==>
      i.Unmapped? && i.fam == fam && i.text in TextsIn(items) && IsVendor(i.text) && i.text !in ids
  {
    hide TextsIn, TermsIn;
    texts, terms, problems := {}, {}, [];
    var todo := items;
    DeriveNone(ids, items);
    while todo != {}
      invariant todo <= items
      invariant texts == TextsIn(items - todo) && terms == TermsIn(ids, items - todo)
      invariant forall i :: i in problems <==>
        i.Unmapped? && i.fam == fam && i.text in TextsIn(items - todo) && IsVendor(i.text) && i.text !in ids
    {
      var m :| m in todo;
      ghost var before := items - todo;
      todo := todo - {m};
      assert items - todo == before + {m};
      DeriveOne(ids, before, m);
      if m.Held? && m.item.Text? {
        var value := m.item.name;
        texts := texts + {value};
        if !IsNotice(value) && ("LICENCE." <= value || "LICENSE." <= value) {
          if value !in ids {
            problems := problems + [Unmapped(fam, value)];
          } else {
            terms := terms + {ids[value]};
          }
        }
      } else if m.Held? && m.item.Term? {
        terms := terms + {m.item.spdx};
      }
    }
    assert items - todo == items;
  }

  lemma {:induction false} DeriveNone(ids: map<string, string>, items: set<Mark>)
    ensures TextsIn(items - items) == {} == TermsIn(ids, items - items)
  {
    assert items - items == {};
  }

  lemma {:induction false} DeriveOne(ids: map<string, string>, items: set<Mark>, m: Mark)
    ensures TextsIn(items + {m}) ==
      if m.Held? && m.item.Text? then TextsIn(items) + {m.item.name} else TextsIn(items)
    ensures TermsIn(ids, items + {m}) ==
      if m.Held? && m.item.Term? then TermsIn(ids, items) + {m.item.spdx}
      else if m.Held? && m.item.Text? && IsVendor(m.item.name) && m.item.name in ids then
        TermsIn(ids, items) + {ids[m.item.name]}
      else TermsIn(ids, items)
  {
    var more := items + {m};
    assert forall x :: x in more <==> x in items || x == m;
    var terms := set x | x in items && x.Held? && x.item.Term? :: x.item.spdx;
    assert (set x | x in more && x.Held? && x.item.Term? :: x.item.spdx) ==
      terms + if m.Held? && m.item.Term? then {m.item.spdx} else {};
  }

  lemma {:induction false} ListingsInRange(entries: seq<Entry>, n: nat)
    requires n <= |entries|
    ensures InRange(entries, Listings(entries, n))
  {
    if n > 0 { ListingsInRange(entries, n - 1); }
  }

  /** What account finds wrong with one packaged family, and the texts and terms it derives for it. */
  method AccountFamily(cfg: Config, fam: string, got: Got)
    returns (texts: set<string>, terms: set<string>, problems: seq<Issue>)
    ensures texts == TextsIn(got.items) && terms == TermsIn(cfg.ids, got.items)
    ensures forall i :: i in problems <==>
      match i
      case Unlicensed(f, p) => f == fam && p in got.unlicensed
      case Unmapped(f, t) => f == fam && t in texts && IsVendor(t) && t !in cfg.ids
      case MissingText(f, t) => f == fam && t in texts && t !in cfg.texts
      case WrongLicence(f) => f == fam && DeclaredBy(cfg.fams, fam) != terms
      case _ => false
  {
    problems := [];
    var k := 0;
    while k < |got.unlicensed|
      invariant 0 <= k <= |got.unlicensed|
      invariant forall i :: i in problems <==> i.Unlicensed? && i.fam == fam && i.path in got.unlicensed[..k]
    {
      problems := problems + [Unlicensed(fam, got.unlicensed[k])];
      k := k + 1;
    }
    var more;
    texts, terms, more := Derive(got.items, cfg.ids, fam);
    problems := problems + more;
    var missing: seq<Issue> := [];
    var todo := texts;
    while todo != {}
      invariant todo <= texts
      invariant forall i :: i in missing <==>
        i.MissingText? && i.fam == fam && i.text in texts - todo && i.text !in cfg.texts
    {
      var text :| text in todo;
      todo := todo - {text};
      if text !in cfg.texts {
        missing := missing + [MissingText(fam, text)];
      }
    }
    problems := problems + missing;
    if DeclaredBy(cfg.fams, fam) != terms {
      problems := problems + [WrongLicence(fam)];
    }
  }

  /** Links must not cross families. */
  method CrossingLinks(cfg: Config, fileOwner: map<string, string>, fam: string, links: seq<(string, string)>)
    returns (problems: seq<Issue>)
    ensures forall i :: i in problems <==>
      i.Crosses? && i.fam == fam && (i.link, i.target) in links &&
      cfg.resolve(i.link, i.target) in fileOwner && fileOwner[cfg.resolve(i.link, i.target)] != fam
  {
    problems := [];
    var k := 0;
    while k < |links|
      invariant 0 <= k <= |links|
      invariant forall i :: i in problems <==>
        i.Crosses? && i.fam == fam && (i.link, i.target) in links[..k] &&
        cfg.resolve(i.link, i.target) in fileOwner && fileOwner[cfg.resolve(i.link, i.target)] != fam
    {
      var (link, target) := links[k];
      var tpath := cfg.resolve(link, target);
      if tpath in fileOwner && fileOwner[tpath] != fam {
        problems := problems + [Crosses(fam, link, target)];
      }
      assert links[..k + 1] == links[..k] + [(link, target)];
      k := k + 1;
    }
    assert links[..k] == links;
  }

  datatype Kept = Kept(texts: set<string>, terms: set<string>)

  /** The state of account's first loop: what the families seen so far have been found to be. */
  ghost predicate Reviewed(cfg: Config, out: map<string, Got>, seen: set<string>, derived: map<string, Kept>,
      used: set<string>, problems: seq<Issue>)
  {
    seen <= out.Keys && derived.Keys == seen - {IGNORE} &&
    (forall fam :: fam in derived ==>
      derived[fam] == Kept(TextsIn(out[fam].items), TermsIn(cfg.ids, out[fam].items))) &&
    (forall t :: t in used <==> t in cfg.ids && exists fam :: fam in derived && t in TextsIn(out[fam].items)) &&
    forall i :: i in problems <==>
      match i
      case Unlicensed(f, p) => f in derived && p in out[f].unlicensed
      case Unmapped(f, t) => f in derived && t in TextsIn(out[f].items) && IsVendor(t) && t !in cfg.ids
      case MissingText(f, t) => f in derived && t in TextsIn(out[f].items) && t !in cfg.texts
      case WrongLicence(f) => f in derived && DeclaredBy(cfg.fams, f) != TermsIn(cfg.ids, out[f].items)
      case _ => false
  }

  method ReviewFamilies(cfg: Config, out: map<string, Got>)
    returns (derived: map<string, Kept>, used: set<string>, problems: seq<Issue>)
    ensures Reviewed(cfg, out, out.Keys, derived, used, problems)
  {
    derived, used, problems := map[], {}, [];
    var todo := out.Keys;
    while todo != {}
      invariant todo <= out.Keys && Reviewed(cfg, out, out.Keys - todo, derived, used, problems)
    {
      var fam :| fam in todo;
      todo := todo - {fam};
      if fam != IGNORE {
        var texts, terms, found := AccountFamily(cfg, fam, out[fam]);
        used := used + set t | t in texts && t in cfg.ids;
        derived := derived[fam := Kept(texts, terms)];
        problems := problems + found;
      }
    }
    assert out.Keys - todo == out.Keys;
  }

  /** An issue, said of the records assign fills instead of the listings behind them. */
  ghost predicate Recorded(cfg: Config, parsed: seq<Problem>, unclaimed: seq<Listing>, fileOwner: map<string, string>,
      out: map<string, Got>, i: Issue)
  {
    match i
    case Parse(p) => p in parsed
    case Unclaimed(l) => l in unclaimed
    case Unlicensed(f, p) => f != IGNORE && f in out && p in out[f].unlicensed
    case Unmapped(f, t) => f != IGNORE && f in out && t in TextsIn(out[f].items) && IsVendor(t) && t !in cfg.ids
    case MissingText(f, t) => f != IGNORE && f in out && t in TextsIn(out[f].items) && t !in cfg.texts
    case WrongLicence(f) => f != IGNORE && f in out && DeclaredBy(cfg.fams, f) != TermsIn(cfg.ids, out[f].items)
    case UnusedId(t) => t in cfg.ids && forall f :: f in out && f != IGNORE ==> t !in TextsIn(out[f].items)
    case Crosses(f, p, t) =>
      f in out && (p, t) in out[f].links && cfg.resolve(p, t) in fileOwner && fileOwner[cfg.resolve(p, t)] != f
    case MatchesNothing(f) => f != IGNORE && f !in out && exists k :: 0 <= k < |cfg.fams| && cfg.fams[k].name == f
  }

  /** The issues account reports, from what assign has filled. */
  method Report(cfg: Config, parsed: seq<Problem>, unclaimed: seq<Listing>, fileOwner: map<string, string>,
      out: map<string, Got>)
    returns (derived: map<string, Kept>, problems: seq<Issue>)
    ensures forall i :: i in problems <==> Recorded(cfg, parsed, unclaimed, fileOwner, out, i)
    ensures derived.Keys == out.Keys - {IGNORE}
    ensures forall fam :: fam in derived ==>
      derived[fam] == Kept(TextsIn(out[fam].items), TermsIn(cfg.ids, out[fam].items))
  {
    hide TextsIn, TermsIn, DeclaredBy, IsVendor;
    problems := seq(|parsed|, k requires 0 <= k < |parsed| => Parse(parsed[k]));
    forall i ensures i in problems <==> i.Parse? && i.problem in parsed {
      if i.Parse? && i.problem in parsed {
        var k :| 0 <= k < |parsed| && parsed[k] == i.problem;
        assert problems[k] == i;
      }
    }
    var lost := seq(|unclaimed|, k requires 0 <= k < |unclaimed| => Unclaimed(unclaimed[k]));
    forall i ensures i in lost <==> i.Unclaimed? && i.listing in unclaimed {
      if i.Unclaimed? && i.listing in unclaimed {
        var k :| 0 <= k < |unclaimed| && unclaimed[k] == i.listing;
        assert lost[k] == i;
      }
    }
    var used, found;
    derived, used, found := ReviewFamilies(cfg, out);
    var unused := Unused(cfg, used);
    var crossing := AllCrossingLinks(cfg, fileOwner, out);
    var unmatched := Unmatched(cfg, out);
    var rest := unused + crossing + unmatched;
    problems := problems + lost + found + rest;
  }

  method Unused(cfg: Config, used: set<string>) returns (problems: seq<Issue>)
    ensures forall i :: i in problems <==> i.UnusedId? && i.text in cfg.ids && i.text !in used
  {
    problems := [];
    var spare := cfg.ids.Keys - used;
    while spare != {}
      invariant spare <= cfg.ids.Keys - used
      invariant forall i :: i in problems <==> i.UnusedId? && i.text in cfg.ids.Keys - used - spare
    {
      var t :| t in spare;
      problems := problems + [UnusedId(t)];
      spare := spare - {t};
    }
  }

  method AllCrossingLinks(cfg: Config, fileOwner: map<string, string>, out: map<string, Got>)
      returns (problems: seq<Issue>)
    ensures forall i :: i in problems <==>
      i.Crosses? && i.fam in out && (i.link, i.target) in out[i.fam].links &&
      cfg.resolve(i.link, i.target) in fileOwner && fileOwner[cfg.resolve(i.link, i.target)] != i.fam
  {
    problems := [];
    var todo := out.Keys;
    while todo != {}
      invariant todo <= out.Keys
      invariant forall i :: i in problems <==>
        i.Crosses? && i.fam in out.Keys - todo && (i.link, i.target) in out[i.fam].links &&
        cfg.resolve(i.link, i.target) in fileOwner && fileOwner[cfg.resolve(i.link, i.target)] != i.fam
    {
      var fam :| fam in todo;
      var found := CrossingLinks(cfg, fileOwner, fam, out[fam].links);
      problems := problems + found;
      todo := todo - {fam};
    }
  }

  method Unmatched(cfg: Config, out: map<string, Got>) returns (problems: seq<Issue>)
    ensures forall i :: i in problems <==>
      i.MatchesNothing? && i.fam != IGNORE && i.fam !in out &&
      exists k :: 0 <= k < |cfg.fams| && cfg.fams[k].name == i.fam
  {
    problems := [];
    var k := 0;
    while k < |cfg.fams|
      invariant 0 <= k <= |cfg.fams|
      invariant forall i :: i in problems <==>
        i.MatchesNothing? && i.fam != IGNORE && i.fam !in out && exists j :: 0 <= j < k && cfg.fams[j].name == i.fam
    {
      var fam := cfg.fams[k].name;
      if fam != IGNORE && fam !in out {
        problems := problems + [MatchesNothing(fam)];
      }
      k := k + 1;
    }
  }

  /** The records assign leaves say of every issue what the listings say. */
  ghost predicate Records(cfg: Config, entries: seq<Entry>, ls: seq<Listing>, unclaimed: seq<Listing>,
      fileOwner: map<string, string>, out: map<string, Got>)
  {
    InRange(entries, ls) && unclaimed == UnclaimedOf(cfg, entries, ls) &&
    (forall p :: Owner(cfg, entries, ls, p) == if p in fileOwner then Some(fileOwner[p]) else None) &&
    (forall fam :: fam in out <==> Taken(cfg, entries, ls, fam)) &&
    forall fam :: fam in out ==>
      var g := GotBy(cfg, entries, ls, fam);
      out[fam] == g.(items := set m | m in g.items && m.Held?)
  }

  method Account(cfg: Config, entries: seq<Entry>, parsed: seq<Problem>)
    returns (out: map<string, Got>, derived: map<string, Kept>, problems: seq<Issue>)
    ensures forall i :: i in problems <==> IsIssue(cfg, entries, parsed, i)
    ensures derived.Keys == out.Keys - {IGNORE}
    ensures forall fam :: fam in derived ==>
      derived[fam] == Kept(TextsIn(out[fam].items), TermsIn(cfg.ids, out[fam].items))
    ensures exists unclaimed, fileOwner ::
      Records(cfg, entries, Listings(entries, |entries|), unclaimed, fileOwner, out)
  {
    var a := new Assigner(cfg, entries);
    a.Assign();
    out := a.out;
    assert Records(cfg, entries, Listings(entries, |entries|), a.unclaimed, a.fileOwner, out);
    derived, problems := Report(cfg, parsed, a.unclaimed, a.fileOwner, out);
    forall i ensures i in problems <==> IsIssue(cfg, entries, parsed, i) {
      IssueRecorded(cfg, entries, parsed, Listings(entries, |entries|), a.unclaimed, a.fileOwner, out, i);
    }
  }

  lemma {:induction false} IssueRecorded(cfg: Config, entries: seq<Entry>, parsed: seq<Problem>, ls: seq<Listing>,
      unclaimed: seq<Listing>, fileOwner: map<string, string>, out: map<string, Got>, i: Issue)
    requires ls == Listings(entries, |entries|) && Records(cfg, entries, ls, unclaimed, fileOwner, out)
    ensures IsIssue(cfg, entries, parsed, i) <==> Recorded(cfg, parsed, unclaimed, fileOwner, out, i)
  {
    match i {
      case Unclaimed(l) => UnclaimedAreLost(cfg, entries, ls, l);
      case Unlicensed(f, p) => UnlicensedRecorded(cfg, entries, ls, unclaimed, fileOwner, out, f, p);
      case Crosses(f, p, t) => LinkRecorded(cfg, entries, ls, unclaimed, fileOwner, out, f, p, t);
      case Unmapped(f, t) => CitesRecorded(cfg, entries, ls, unclaimed, fileOwner, out, f, t);
      case MissingText(f, t) => CitesRecorded(cfg, entries, ls, unclaimed, fileOwner, out, f, t);
      case UnusedId(t) =>
        forall f ensures Cites(cfg, entries, ls, f, t) <==> f != IGNORE && f in out && t in TextsIn(out[f].items) {
          CitesRecorded(cfg, entries, ls, unclaimed, fileOwner, out, f, t);
        }
      case WrongLicence(f) => if f in out { NotesCiteNothing(cfg.ids, GotBy(cfg, entries, ls, f).items); }
      case _ =>
    }
  }

  lemma {:induction false} UnlicensedRecorded(cfg: Config, entries: seq<Entry>, ls: seq<Listing>,
      unclaimed: seq<Listing>, fileOwner: map<string, string>, out: map<string, Got>, f: string, p: string)
    requires Records(cfg, entries, ls, unclaimed, fileOwner, out)
    ensures (exists n: nat :: Bares(cfg, entries, ls, f, n, p)) <==> f in out && p in out[f].unlicensed
  {
    GotByTaking(cfg, entries, ls, f);
    if n: nat :| Bares(cfg, entries, ls, f, n, p) {
      assert Takes(cfg, entries, ls, f, n);
      assert Taken(cfg, entries, ls, f);
    }
  }

  lemma {:induction false} LinkRecorded(cfg: Config, entries: seq<Entry>, ls: seq<Listing>, unclaimed: seq<Listing>,
      fileOwner: map<string, string>, out: map<string, Got>, f: string, p: string, t: string)
    requires Records(cfg, entries, ls, unclaimed, fileOwner, out)
    ensures (exists n: nat :: TakesLink(cfg, entries, ls, f, n, p, t)) <==> f in out && (p, t) in out[f].links
  {
    GotByTaking(cfg, entries, ls, f);
    if n: nat :| TakesLink(cfg, entries, ls, f, n, p, t) {
      assert Takes(cfg, entries, ls, f, n);
      assert Taken(cfg, entries, ls, f);
    }
  }

  lemma {:induction false} CitesRecorded(cfg: Config, entries: seq<Entry>, ls: seq<Listing>, unclaimed: seq<Listing>,
      fileOwner: map<string, string>, out: map<string, Got>, f: string, t: string)
    requires Records(cfg, entries, ls, unclaimed, fileOwner, out)
    ensures Cites(cfg, entries, ls, f, t) <==> f != IGNORE && f in out && t in TextsIn(out[f].items)
  {
    var g := GotBy(cfg, entries, ls, f);
    HeldTexts(g.items, t);
    NotesCiteNothing(cfg.ids, g.items);
  }

  lemma {:induction false} HeldTexts(items: set<Mark>, t: string)
    ensures t in TextsIn(items) <==> Held(Text(t)) in items
  {
    if Held(Text(t)) in items { assert Held(Text(t)).item.name == t; }
  }

  /** Dropping the notes that links rely on their targets changes neither texts nor terms. */
  lemma {:induction false} NotesCiteNothing(ids: map<string, string>, items: set<Mark>)
    ensures var held := set m | m in items && m.Held?;
      TextsIn(held) == TextsIn(items) && TermsIn(ids, held) == TermsIn(ids, items)
  {
    var held := set m | m in items && m.Held?;
    forall t ensures t in TextsIn(held) <==> t in TextsIn(items) {
      HeldTexts(held, t);
      HeldTexts(items, t);
    }
    assert (set m | m in held && m.Held? && m.item.Term? :: m.item.spdx) ==
           (set m | m in items && m.Held? && m.item.Term? :: m.item.spdx);
  }

  // ---- What a clean account means ----

  lemma {:induction false} OwnerTook(cfg: Config, entries: seq<Entry>, ls: seq<Listing>, p: string)
    requires InRange(entries, ls) && Owner(cfg, entries, ls, p).Some?
    ensures exists m: nat :: Takes(cfg, entries, ls, Owner(cfg, entries, ls, p).value, m) && ls[m].path == p
  {
    var k := |ls| - 1;
    var fam := Owner(cfg, entries, ls, p).value;
    if ls[k].path == p && Claim(cfg, entries, ls[..k], ls[k]).Some? {
      assert Takes(cfg, entries, ls, fam, k);
    } else {
      OwnerTook(cfg, entries, ls[..k], p);
      var m: nat :| Takes(cfg, entries, ls[..k], fam, m) && ls[..k][m].path == p;
      assert ls[..k][..m] == ls[..m];
      assert Takes(cfg, entries, ls, fam, m);
    }
  }

  lemma {:induction false} ClaimedIsOwned(cfg: Config, entries: seq<Entry>, ls: seq<Listing>, m: nat)
    requires InRange(entries, ls) && m < |ls| && Claim(cfg, entries, ls[..m], ls[m]).Some?
    ensures Owner(cfg, entries, ls, ls[m].path).Some?
  {
    var k := |ls| - 1;
    if m < k {
      assert ls[..k][..m] == ls[..m];
      ClaimedIsOwned(cfg, entries, ls[..k], m);
    }
  }

  /** A chain of listings, each a link to the next one's path, that ends at one its block gives a licence. Later ones
      were listed earlier, the family took them all, and every target on the way is the family's at the end. */
  ghost predicate Reaches(cfg: Config, entries: seq<Entry>, ls: seq<Listing>, fam: string, c: seq<nat>)
    requires InRange(entries, ls)
  {
    c != [] &&
    (forall i :: 0 <= i < |c| ==> Takes(cfg, entries, ls, fam, c[i])) &&
    (forall i :: 0 <= i < |c| - 1 ==>
      c[i + 1] < c[i] && ls[c[i]].target.Some? && ls[c[i + 1]].path == TargetPath(cfg, ls[c[i]]) &&
      Owner(cfg, entries, ls, TargetPath(cfg, ls[c[i]])) == Some(fam)) &&
    CitedItems(cfg, entries, ls[c[|c| - 1]]) != {}
  }

  ghost predicate Clean(cfg: Config, entries: seq<Entry>, parsed: seq<Problem>) {
    forall i :: !IsIssue(cfg, entries, parsed, i)
  }

  /** When account reports nothing, everything listed is claimed, no family's links leave it, and each packaged family
      declares exactly the terms of what it holds. */
  lemma {:induction false} CleanAccounts(cfg: Config, entries: seq<Entry>, parsed: seq<Problem>)
    requires Clean(cfg, entries, parsed)
    ensures var ls := Listings(entries, |entries|);
      InRange(entries, ls) && parsed == [] &&
      (forall n: nat :: n < |ls| ==> Claim(cfg, entries, ls[..n], ls[n]).Some?) &&
      (forall fam, n: nat :: Takes(cfg, entries, ls, fam, n) && fam != IGNORE ==>
        Marks(cfg, entries, ls[..n], ls[n]) != {} &&
        DeclaredBy(cfg.fams, fam) == TermsIn(cfg.ids, GotBy(cfg, entries, ls, fam).items)) &&
      (forall fam, n: nat :: Takes(cfg, entries, ls, fam, n) && ls[n].target.Some? ==>
        var owner := Owner(cfg, entries, ls, TargetPath(cfg, ls[n]));
        owner == None || owner == Some(fam)) &&
      (forall k :: 0 <= k < |cfg.fams| && cfg.fams[k].name != IGNORE ==> Taken(cfg, entries, ls, cfg.fams[k].name))
  {
    var ls := Listings(entries, |entries|);
    ListingsInRange(entries, |entries|);
    if parsed != [] { assert IsIssue(cfg, entries, parsed, Parse(parsed[0])); }
    forall n: nat | n < |ls| ensures Claim(cfg, entries, ls[..n], ls[n]).Some? {
      assert !IsIssue(cfg, entries, parsed, Unclaimed(ls[n]));
      assert !Loses(cfg, entries, ls, n, ls[n]);
    }
    forall fam, n: nat | Takes(cfg, entries, ls, fam, n) && fam != IGNORE
      ensures Marks(cfg, entries, ls[..n], ls[n]) != {}
      ensures DeclaredBy(cfg.fams, fam) == TermsIn(cfg.ids, GotBy(cfg, entries, ls, fam).items)
    {
      assert !IsIssue(cfg, entries, parsed, Unlicensed(fam, ls[n].path));
      assert !Bares(cfg, entries, ls, fam, n, ls[n].path);
      assert !IsIssue(cfg, entries, parsed, WrongLicence(fam));
    }
    forall fam, n: nat | Takes(cfg, entries, ls, fam, n) && ls[n].target.Some? &&
                    Owner(cfg, entries, ls, TargetPath(cfg, ls[n])).Some?
      ensures Owner(cfg, entries, ls, TargetPath(cfg, ls[n])) == Some(fam)
    {
      assert !IsIssue(cfg, entries, parsed, Crosses(fam, ls[n].path, ls[n].target.value));
      assert TakesLink(cfg, entries, ls, fam, n, ls[n].path, ls[n].target.value);
    }
    forall k | 0 <= k < |cfg.fams| && cfg.fams[k].name != IGNORE ensures Taken(cfg, entries, ls, cfg.fams[k].name) {
      assert !IsIssue(cfg, entries, parsed, MatchesNothing(cfg.fams[k].name));
    }
  }

  /** Everything a packaged family takes in a clean account reaches a cited licence inside the family. */
  lemma {:induction false} CleanReaches(cfg: Config, entries: seq<Entry>, parsed: seq<Problem>, ls: seq<Listing>,
      fam: string, n: nat)
    requires Clean(cfg, entries, parsed) && ls == Listings(entries, |entries|) && InRange(entries, ls)
    requires fam != IGNORE && Takes(cfg, entries, ls, fam, n)
    ensures exists c :: Reaches(cfg, entries, ls, fam, c) && c[0] == n
    decreases n
  {
    CleanAccounts(cfg, entries, parsed);
    var l := ls[n];
    if CitedItems(cfg, entries, l) != {} {
      assert Reaches(cfg, entries, ls, fam, [n]);
    } else {
      var tpath := TargetPath(cfg, l);
      assert Owner(cfg, entries, ls[..n], tpath) == Some(fam);
      OwnerTook(cfg, entries, ls[..n], tpath);
      var m: nat :| Takes(cfg, entries, ls[..n], fam, m) && ls[..n][m].path == tpath;
      assert ls[..n][..m] == ls[..m] && ls[..n][m] == ls[m];
      ClaimedIsOwned(cfg, entries, ls, m);
      CleanReaches(cfg, entries, parsed, ls, fam, m);
      var c: seq<nat> :| Reaches(cfg, entries, ls, fam, c) && c[0] == m;
      ReachesFurther(cfg, entries, ls, fam, n, c);
    }
  }

  lemma {:induction false} ReachesFurther(cfg: Config, entries: seq<Entry>, ls: seq<Listing>, fam: string, n: nat,
      c: seq<nat>)
    requires InRange(entries, ls) && Reaches(cfg, entries, ls, fam, c)
    requires Takes(cfg, entries, ls, fam, n) && c[0] < n && ls[n].target.Some?
    requires ls[c[0]].path == TargetPath(cfg, ls[n])
    requires Owner(cfg, entries, ls, TargetPath(cfg, ls[n])) == Some(fam)
    ensures Reaches(cfg, entries, ls, fam, [n] + c)
  {
    var d := [n] + c;
    assert forall i :: 0 <= i < |c| ==> d[i + 1] == c[i];
    assert d[|d| - 1] == c[|c| - 1];
  }

  /** The listing's own path has a licence in its block. */
  predicate HasOwn(entries: seq<Entry>, l: Listing)
    requires l.entry < |entries|
  {
    ItemsOf(entries[l.entry], l.path) != {}
  }

  /** Every link the family takes without a licence of its own is listed after its target. */
  ghost predicate TargetsFirst(cfg: Config, entries: seq<Entry>, ls: seq<Listing>, fam: string)
    requires InRange(entries, ls)
  {
    forall n: nat :: Takes(cfg, entries, ls, fam, n) && ls[n].target.Some? && !HasOwn(entries, ls[n]) ==>
      exists m :: 0 <= m < n && ls[m].path == TargetPath(cfg, ls[n])
  }

  /** A chain of earlier-listed targets leads from the n-th listing to one with a licence of its own. */
  ghost predicate ReachesOwn(cfg: Config, entries: seq<Entry>, ls: seq<Listing>, fam: string, n: nat)
    requires InRange(entries, ls)
  {
    exists c: seq<nat> :: Reaches(cfg, entries, ls, fam, c) && c[0] == n && HasOwn(entries, ls[c[|c| - 1]])
  }

  /** What a clean account knows of a taken listing without a licence of its own whose target is listed before it: it is
      a link, and its family took the target before it and owns it in the end. */
  lemma {:induction false} EarlierTarget(cfg: Config, entries: seq<Entry>, parsed: seq<Problem>, ls: seq<Listing>,
      fam: string, n: nat, k: nat) returns (m: nat)
    requires Clean(cfg, entries, parsed) && ls == Listings(entries, |entries|) && InRange(entries, ls)
    requires Takes(cfg, entries, ls, fam, n) && ls[n].target.Some?
    requires k < n && ls[k].path == TargetPath(cfg, ls[n])
    ensures m < n && Takes(cfg, entries, ls, fam, m) && ls[m].path == TargetPath(cfg, ls[n])
    ensures Owner(cfg, entries, ls, TargetPath(cfg, ls[n])) == Some(fam)
  {
    hide IsIssue;
    CleanAccounts(cfg, entries, parsed);
    var tpath := TargetPath(cfg, ls[n]);
    assert ls[..n][..k] == ls[..k] && ls[..n][k] == ls[k];
    ClaimedIsOwned(cfg, entries, ls[..n], k);
    ClaimedIsOwned(cfg, entries, ls, k);
    assert Owner(cfg, entries, ls[..n], tpath) == Some(fam);
    OwnerTook(cfg, entries, ls[..n], tpath);
    m :| Takes(cfg, entries, ls[..n], fam, m) && ls[..n][m].path == tpath;
    assert ls[..n][..m] == ls[..m] && ls[..n][m] == ls[m];
  }

  lemma {:induction false} WithoutOwnIsLink(cfg: Config, entries: seq<Entry>, parsed: seq<Problem>, ls: seq<Listing>,
      fam: string, n: nat)
    requires Clean(cfg, entries, parsed) && ls == Listings(entries, |entries|) && InRange(entries, ls)
    requires fam != IGNORE && Takes(cfg, entries, ls, fam, n) && !HasOwn(entries, ls[n])
    ensures ls[n].target.Some?
  {
    hide IsIssue;
    CleanAccounts(cfg, entries, parsed);
    assert Marks(cfg, entries, ls[..n], ls[n]) != {};
  }

  lemma {:induction false} TargetsFirstReaches(cfg: Config, entries: seq<Entry>, parsed: seq<Problem>, ls: seq<Listing>,
      fam: string, n: nat)
    requires Clean(cfg, entries, parsed) && ls == Listings(entries, |entries|) && InRange(entries, ls)
    requires fam != IGNORE && TargetsFirst(cfg, entries, ls, fam) && Takes(cfg, entries, ls, fam, n)
    ensures ReachesOwn(cfg, entries, ls, fam, n)
    decreases n
  {
    if HasOwn(entries, ls[n]) {
      assert Reaches(cfg, entries, ls, fam, [n]);
    } else {
      hide Clean, HasOwn, Takes, Owner, Listings;
      WithoutOwnIsLink(cfg, entries, parsed, ls, fam, n);
      var k :| 0 <= k < n && ls[k].path == TargetPath(cfg, ls[n]);
      var m := EarlierTarget(cfg, entries, parsed, ls, fam, n, k);
      TargetsFirstReaches(cfg, entries, parsed, ls, fam, m);
      var c: seq<nat> :| Reaches(cfg, entries, ls, fam, c) && c[0] == m && HasOwn(entries, ls[c[|c| - 1]]);
      ReachesFurther(cfg, entries, ls, fam, n, c);
      assert ([n] + c)[|[n] + c| - 1] == c[|c| - 1];
    }
  }

  /** In a clean account everything a packaged family takes reaches a licence of its own through earlier-listed targets
      exactly when each of its links without one is listed after its target. */
  lemma {:induction false} ReachesOwnExactly(cfg: Config, entries: seq<Entry>, parsed: seq<Problem>, ls: seq<Listing>,
      fam: string)
    requires Clean(cfg, entries, parsed) && ls == Listings(entries, |entries|) && InRange(entries, ls)
    requires fam != IGNORE
    ensures TargetsFirst(cfg, entries, ls, fam) <==>
      forall n: nat :: Takes(cfg, entries, ls, fam, n) ==> ReachesOwn(cfg, entries, ls, fam, n)
  {
    if TargetsFirst(cfg, entries, ls, fam) {
      forall n: nat | Takes(cfg, entries, ls, fam, n) ensures ReachesOwn(cfg, entries, ls, fam, n) {
        TargetsFirstReaches(cfg, entries, parsed, ls, fam, n);
      }
    }
    if forall n: nat :: Takes(cfg, entries, ls, fam, n) ==> ReachesOwn(cfg, entries, ls, fam, n) {
      forall n: nat | Takes(cfg, entries, ls, fam, n) && !HasOwn(entries, ls[n])
        ensures ls[n].target.Some? ==> exists m :: 0 <= m < n && ls[m].path == TargetPath(cfg, ls[n])
      {
        var c: seq<nat> :| Reaches(cfg, entries, ls, fam, c) && c[0] == n && HasOwn(entries, ls[c[|c| - 1]]);
        assert |c| > 1;
        assert c[0 + 1] < c[0] && ls[c[0 + 1]].path == TargetPath(cfg, ls[c[0]]);
      }
    }
  }

  lemma {:induction false} ListedSomewhere(entries: seq<Entry>, n: nat, k: nat, p: string)
    requires k < n <= |entries| && ListedIn(entries[k], p)
    ensures exists m ::
      0 <= m < |Listings(entries, n)| && Listings(entries, n)[m].entry == k && Listings(entries, n)[m].path == p
  {
    var before := Listings(entries, n - 1);
    var files, links := FileListings(entries[n - 1], n - 1), LinkListings(entries[n - 1], n - 1);
    assert Listings(entries, n) == before + files + links;
    if k < n - 1 {
      ListedSomewhere(entries, n - 1, k, p);
      var m :| 0 <= m < |before| && before[m].entry == k && before[m].path == p;
      assert Listings(entries, n)[m] == before[m];
    } else if p in entries[k].files {
      var i :| 0 <= i < |entries[k].files| && entries[k].files[i] == p;
      assert Listings(entries, n)[|before| + i] == files[i];
    } else {
      var i :| 0 <= i < |entries[k].links| && entries[k].links[i].0 == p;
      assert Listings(entries, n)[|before| + |files| + i] == links[i];
    }
  }

  /** Where a chain ends at a link that has its licence from its target, the target is listed in the same block and is
      the family's in the end. */
  lemma {:induction false} CitedTargetIsOurs(cfg: Config, entries: seq<Entry>, parsed: seq<Problem>, ls: seq<Listing>,
      fam: string, n: nat)
    requires Clean(cfg, entries, parsed) && LicensesOwn(entries)
    requires ls == Listings(entries, |entries|) && InRange(entries, ls) && Takes(cfg, entries, ls, fam, n)
    requires ItemsOf(entries[ls[n].entry], ls[n].path) == {} && CitedItems(cfg, entries, ls[n]) != {}
    ensures exists m :: 0 <= m < |ls| && ls[m].entry == ls[n].entry && ls[m].path == TargetPath(cfg, ls[n])
    ensures Owner(cfg, entries, ls, TargetPath(cfg, ls[n])) == Some(fam)
  {
    var tpath := TargetPath(cfg, ls[n]);
    ListedSomewhere(entries, |entries|, ls[n].entry, tpath);
    var m :| 0 <= m < |ls| && ls[m].entry == ls[n].entry && ls[m].path == tpath;
    CleanAccounts(cfg, entries, parsed);
    ClaimedIsOwned(cfg, entries, ls, m);
  }

  // ---- The whole check ----

  /** main with --check: read WHENCE, then account for it. */
  method Check(cfg: Config, lines: seq<Line>)
    returns (entries: seq<Entry>, out: map<string, Got>, derived: map<string, Kept>, problems: seq<Issue>)
    ensures Listed(lines, |lines|, entries)
    ensures forall k: nat, p :: k < |entries| ==> ItemsOf(entries[k], p) == Attributed(lines, k, p)
    ensures problems == [] <==> Clean(cfg, entries, Complaints(lines, Opening(lines, |lines|)))
    ensures exists unclaimed, fileOwner ::
      Records(cfg, entries, Listings(entries, |entries|), unclaimed, fileOwner, out)
    ensures derived.Keys == out.Keys - {IGNORE}
  {
    hide Records, IsIssue, Listed, Attributed, Complaints;
    var reader := new Reader();
    reader.Read(lines);
    entries := reader.entries;
    out, derived, problems := Account(cfg, entries, reader.problems);
    if problems != [] {
      assert IsIssue(cfg, entries, reader.problems, problems[0]);
    }
  }

  /** Some line of WHENCE gives the path a licence in block k. */
  ghost predicate LicensedByWhence(lines: seq<Line>, k: nat, path: string) {
    exists i: nat, x :: Owed(lines, i, k, path, x)
  }

  /** WHENCE licenses the listing in its block, or licenses there the target, which is the family's, of a link. */
  ghost predicate Grounded(cfg: Config, lines: seq<Line>, entries: seq<Entry>, ls: seq<Listing>, fam: string,
      l: Listing)
    requires InRange(entries, ls)
  {
    LicensedByWhence(lines, l.entry, l.path) ||
    (l.target.Some? && LicensedByWhence(lines, l.entry, TargetPath(cfg, l)) &&
     Owner(cfg, entries, ls, TargetPath(cfg, l)) == Some(fam))
  }

  /** In a release the check passes, whatever a packaged family takes leads, through links the family owns, to a path
      that WHENCE licenses in the block that lists it. */
  lemma {:induction false} CheckedIsLicensed(cfg: Config, lines: seq<Line>, entries: seq<Entry>, parsed: seq<Problem>,
      ls: seq<Listing>, fam: string, n: nat)
    requires Listed(lines, |lines|, entries)
    requires forall k: nat, p :: k < |entries| ==> ItemsOf(entries[k], p) == Attributed(lines, k, p)
    requires Clean(cfg, entries, parsed) && ls == Listings(entries, |entries|) && InRange(entries, ls)
    requires fam != IGNORE && Takes(cfg, entries, ls, fam, n)
    ensures exists c ::
      Reaches(cfg, entries, ls, fam, c) && c[0] == n && Grounded(cfg, lines, entries, ls, fam, ls[c[|c| - 1]])
  {
    CleanReaches(cfg, entries, parsed, ls, fam, n);
    var c: seq<nat> :| Reaches(cfg, entries, ls, fam, c) && c[0] == n;
    var last := c[|c| - 1];
    var l := ls[last];
    assert Takes(cfg, entries, ls, fam, last);
    if ItemsOf(entries[l.entry], l.path) != {} {
      ItemsAreOwed(lines, entries, l.entry, l.path);
    } else {
      ItemsAreOwed(lines, entries, l.entry, TargetPath(cfg, l));
      ReadLicensesOwn(lines, entries);
      CitedTargetIsOurs(cfg, entries, parsed, ls, fam, last);
    }
  }

  lemma {:induction false} ItemsAreOwed(lines: seq<Line>, entries: seq<Entry>, k: nat, path: string)
    requires k < |entries| && ItemsOf(entries[k], path) == Attributed(lines, k, path) != {}
    ensures LicensedByWhence(lines, k, path)
  {
    var x :| x in Attributed(lines, k, path);
    var i: nat :| i < |lines| && Owed(lines, i, k, path, x);
    assert Owed(lines, i, k, path, x);
  }

  /** The path that licenses a link need not be listed before it: this account is clean, its first listing links to the
      second, and only the second has a licence. */
  lemma {:induction false} LicensedByLaterListing() returns (cfg: Config, entries: seq<Entry>, ls: seq<Listing>)
    ensures ls == Listings(entries, |entries|) && InRange(entries, ls) && |ls| == 2
    ensures Clean(cfg, entries, []) && Takes(cfg, entries, ls, "a", 0) && "a" != IGNORE
    ensures ls[0].target.Some? && TargetPath(cfg, ls[0]) == ls[1].path != ls[0].path
    ensures ItemsOf(entries[0], ls[0].path) == {} && CitedItems(cfg, entries, ls[0]) != {}
  {
    var a := Family("a", (d: string) => true, (p: string) => false, {"MIT"});
    cfg := Config([a], map[], {"MIT"}, (l: string, t: string) => t);
    var items := {Term("MIT"), Text("MIT")};
    entries := [Entry("d", [], [("x", "y"), ("y", "z")], 0, map["y" := items])];
    ls := Listings(entries, 1);
    assert Listings(entries, 0) == [];
    assert ls == [Listing(0, "x", Some("y")), Listing(0, "y", Some("z"))];
    SampleTakes(cfg, entries, ls);
    var marks := Hold(items);
    assert Held(Text("MIT")) in marks;
    TwoItems(cfg.ids, marks);
    SampleIsClean(cfg, entries, ls);
  }

  lemma {:induction false} SampleTakes(cfg: Config, entries: seq<Entry>, ls: seq<Listing>)
    requires |entries| == 1 && ls == [Listing(0, "x", Some("y")), Listing(0, "y", Some("z"))]
    requires cfg.resolve("x", "y") == "y" && cfg.resolve("y", "z") == "z"
    requires forall l: Listing :: l.entry == 0 ==> ByPattern(cfg, entries, l) == Some("a")
    requires ItemsOf(entries[0], "x") == {} && ItemsOf(entries[0], "y") != {}
    ensures Takes(cfg, entries, ls, "a", 0) && Takes(cfg, entries, ls, "a", 1)
    ensures Owner(cfg, entries, ls, "y") == Some("a") && Owner(cfg, entries, ls, "z") == None
    ensures Marks(cfg, entries, ls[..0], ls[0]) == Marks(cfg, entries, ls[..1], ls[1]) == Hold(ItemsOf(entries[0], "y"))
    ensures GotBy(cfg, entries, ls, "a").items == Hold(ItemsOf(entries[0], "y"))
  {
    hide ByPattern, ItemsOf, Hold;
    assert ls[..0] == [] && ls[..1] == [ls[0]] && ls[..2] == ls;
    assert Claim(cfg, entries, ls[..0], ls[0]) == Some("a");
    assert Owner(cfg, entries, ls[..1], "z") == None;
    assert Claim(cfg, entries, ls[..1], ls[1]) == Some("a");
    assert GotBy(cfg, entries, ls[..1], "a").items == Hold(ItemsOf(entries[0], "y"));
  }

  lemma {:induction false} SampleIsClean(cfg: Config, entries: seq<Entry>, ls: seq<Listing>)
    requires ls == Listings(entries, |entries|) && InRange(entries, ls) && |ls| == 2
    requires cfg.ids == map[] && cfg.texts == {"MIT"} && |cfg.fams| == 1 && cfg.fams[0].name == "a"
    requires Takes(cfg, entries, ls, "a", 0) && Takes(cfg, entries, ls, "a", 1)
    requires Marks(cfg, entries, ls[..0], ls[0]) != {} && Marks(cfg, entries, ls[..1], ls[1]) != {}
    requires ls[0].target.Some? && Owner(cfg, entries, ls, TargetPath(cfg, ls[0])) == Some("a")
    requires ls[1].target.Some? && Owner(cfg, entries, ls, TargetPath(cfg, ls[1])) == None
    requires DeclaredBy(cfg.fams, "a") == TermsIn(cfg.ids, GotBy(cfg, entries, ls, "a").items)
    requires forall t :: Held(Text(t)) in GotBy(cfg, entries, ls, "a").items ==> t == "MIT"
    ensures Clean(cfg, entries, [])
  {
    hide Marks, Owner, Claim, GotBy, Listings;
    forall fam, n: nat | Takes(cfg, entries, ls, fam, n) ensures fam == "a" && n < 2 { }
    forall i ensures !IsIssue(cfg, entries, [], i) {
      if i.Unclaimed? {
        forall n: nat ensures !Loses(cfg, entries, ls, n, i.listing) {
          if n < |ls| { assert n == 0 || n == 1; }
        }
      }
    }
  }

  lemma {:induction false} TwoItems(ids: map<string, string>, marks: set<Mark>)
    requires marks == Hold({Term("MIT"), Text("MIT")}) && ids == map[]
    ensures TextsIn(marks) == {"MIT"} && TermsIn(ids, marks) == {"MIT"}
    ensures forall t :: Held(Text(t)) in marks ==> t == "MIT"
  {
    assert Held(Term("MIT")) in marks && Held(Text("MIT")) in marks;
    assert Held(Term("MIT")).item.spdx == "MIT" && Held(Text("MIT")).item.name == "MIT";
  }
}

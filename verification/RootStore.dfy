/** Choosing the trusted roots from certdata's objects (certdata-to-pem.py). */
module RootStore {
  import opened Prelude
  import opened PyText
  import opened CertData

  const CERTIFICATE := "CKO_CERTIFICATE"
  const TRUST := "CKO_NSS_TRUST"
  const ROOT_LIST := "CKO_NSS_BUILTIN_ROOT_LIST"

  /** hashlib.sha256(...).hexdigest(). */
  type Digest = seq<byte> -> string

  type Key = (seq<byte>, seq<byte>)

  datatype Auth = Trusted | Distrusted | OtherPurpose

  datatype Entry = Entry(name: string, fingerprint: string, der: seq<byte>)

  datatype Counts = Counts(certificates: nat, trustObjects: nat, trusted: nat, distrusted: nat, otherPurpose: nat,
    untrusted: nat, distrustAfter: nat)

  datatype Refusal =
    | NoIdentity | NoDer | DuplicateCertificate | DuplicateTrust | UnsupportedClass | RootLists | Mismatch
    | DuplicateBytes | UnsafeLabel | UnknownAuth

  // ---- Objects ----

  predicate Is(o: Obj, class_: string) { CLASS in o && o[CLASS] == Str(class_) }

  function BytesOf(o: Obj, name: string): (r: Option<seq<byte>>)
    ensures r.Some? ==> r.value != []
  {
    if name in o && o[name].Bytes? && o[name].bytes != [] then Some(o[name].bytes) else None
  }

  /** object_key. */
  function KeyOf(o: Obj): Option<Key> {
    match (BytesOf(o, "CKA_ISSUER"), BytesOf(o, "CKA_SERIAL_NUMBER"))
    case (Some(issuer), Some(serial)) => Some((issuer, serial))
    case _ => None
  }

  function DerOf(o: Obj): Option<seq<byte>> { BytesOf(o, "CKA_VALUE") }

  /** label_of. */
  function LabelOf(o: Obj): Option<string> {
    if "CKA_LABEL" !in o then Some("(unnamed)")
    else
      match o["CKA_LABEL"]
      case Bytes(_) => None
      case Str(t) => if '\n' in t || '\r' in t then None else Some(t)
  }

  function AuthOf(o: Obj): Option<Auth> {
    if "CKA_TRUST_SERVER_AUTH" !in o then None
    else
      var v := o["CKA_TRUST_SERVER_AUTH"];
      if v == Str("CKT_NSS_TRUSTED_DELEGATOR") then Some(Trusted)
      else if v == Str("CKT_NSS_NOT_TRUSTED") then Some(Distrusted)
      else if v == Str("CKT_NSS_MUST_VERIFY_TRUST") then Some(OtherPurpose)
      else None
  }

  /** The record carries a date after which its certificate is to be distrusted. */
  predicate HasCutoff(o: Obj) {
    "CKA_NSS_SERVER_DISTRUST_AFTER" in o && o["CKA_NSS_SERVER_DISTRUST_AFTER"] != Str("CK_FALSE")
  }

  // ---- What a conversion is, whatever the order of the objects ----

  type Objects = multiset<Obj>

  predicate Known(o: Obj) {
    Is(o, ROOT_LIST) || (Is(o, CERTIFICATE) && KeyOf(o).Some? && DerOf(o).Some?) || (Is(o, TRUST) && KeyOf(o).Some?)
  }

  ghost predicate OneRootList(m: Objects) {
    exists o :: Those(m, ROOT_LIST) == {o} && m[o] == 1
  }

  function Those(m: Objects, class_: string): set<Obj> { set o | o in m && Is(o, class_) }

  /** Each object of the class occurs once, and its key is no other's. */
  predicate Distinct(m: Objects, class_: string) {
    (forall o :: o in Those(m, class_) ==> m[o] == 1) &&
    forall o, p :: o in Those(m, class_) && p in Those(m, class_) && KeyOf(o) == KeyOf(p) ==> o == p
  }

  ghost predicate Matched(m: Objects, class_: string, other: string) {
    forall o :: o in Those(m, class_) ==> exists p :: p in Those(m, other) && KeyOf(p) == KeyOf(o)
  }

  /** The trust record of this certificate. */
  predicate RecordOf(m: Objects, o: Obj, p: Obj) { p in Those(m, TRUST) && KeyOf(p) == KeyOf(o) }

  ghost predicate Acceptable(digest: Digest, m: Objects) {
    (forall o :: o in m ==> Known(o)) && OneRootList(m) &&
    Distinct(m, CERTIFICATE) && Distinct(m, TRUST) &&
    Matched(m, CERTIFICATE, TRUST) && Matched(m, TRUST, CERTIFICATE) &&
    (forall o :: o in Those(m, CERTIFICATE) ==> LabelOf(o).Some?) &&
    (forall o, p :: o in Those(m, CERTIFICATE) && p in Those(m, CERTIFICATE) && SameBytes(digest, o, p) ==> o == p) &&
    forall p :: p in Those(m, TRUST) ==> AuthOf(p).Some?
  }

  predicate SameBytes(digest: Digest, o: Obj, p: Obj) {
    DerOf(o).Some? && DerOf(p).Some? && digest(DerOf(o).value) == digest(DerOf(p).value)
  }

  /** The certificates among some whose record says a. */
  ghost predicate Marked(m: Objects, o: Obj, a: Auth) { exists p :: RecordOf(m, o, p) && AuthOf(p) == Some(a) }

  ghost predicate Late(m: Objects, o: Obj) {
    exists p :: RecordOf(m, o, p) && AuthOf(p) == Some(Trusted) && HasCutoff(p)
  }

  ghost function With(m: Objects, among: set<Obj>, a: Auth): set<Obj> { set o | o in among && Marked(m, o, a) }

  ghost function WithCutoff(m: Objects, among: set<Obj>): set<Obj> { set o | o in among && Late(m, o) }

  predicate IsEntry(digest: Digest, o: Obj, e: Entry) {
    LabelOf(o) == Some(e.name) && DerOf(o) == Some(e.der) && e.fingerprint == digest(e.der)
  }

  /** The order of the sort: by label, then fingerprint. */
  predicate Less(a: Entry, b: Entry) {
    Precedes(a.name, b.name) || (a.name == b.name && Precedes(a.fingerprint, b.fingerprint))
  }

  predicate Ordered(es: seq<Entry>) { forall i, j :: 0 <= i < j < |es| ==> Less(es[i], es[j]) }

  ghost predicate ListsRoots(digest: Digest, m: Objects, among: set<Obj>, es: seq<Entry>) {
    forall e :: e in es <==> exists o :: o in among && Marked(m, o, Trusted) && IsEntry(digest, o, e)
  }

  ghost predicate Tallied(m: Objects, among: set<Obj>, c: Counts) {
    c.trusted == |With(m, among, Trusted)| && c.distrusted == |With(m, among, Distrusted)| &&
    c.otherPurpose == |With(m, among, OtherPurpose)| && c.untrusted == 0 && c.distrustAfter == |WithCutoff(m, among)|
  }

  /** The result: the trusted certificates in order, and how many there are of each sort. */
  ghost predicate IsConversion(digest: Digest, m: Objects, es: seq<Entry>, c: Counts) {
    var certificates := Those(m, CERTIFICATE);
    Ordered(es) && ListsRoots(digest, m, certificates, es) && Tallied(m, certificates, c) &&
    c.certificates == |certificates| && c.trustObjects == |Those(m, TRUST)|
  }

  // ---- The order of entries ----

  lemma {:induction false} LessIsOrder(a: Entry, b: Entry, c: Entry)
    ensures !Less(a, a)
    ensures a.fingerprint != b.fingerprint ==> Less(a, b) || Less(b, a)
    ensures Less(a, b) && Less(b, c) ==> Less(a, c)
  {
    hide Precedes;
    PrecedesIsOrder(a.name, b.name, c.name);
    PrecedesIsOrder(a.fingerprint, b.fingerprint, c.fingerprint);
  }

  function Insert(e: Entry, es: seq<Entry>): seq<Entry> {
    if es == [] || Less(e, es[0]) then [e] + es else [es[0]] + Insert(e, es[1..])
  }

  /** entries.sort. */
  function Sorted(es: seq<Entry>): seq<Entry> {
    if es == [] then [] else Insert(es[|es| - 1], Sorted(es[..|es| - 1]))
  }

  predicate DistinctPrints(es: seq<Entry>) {
    forall i, j :: 0 <= i < j < |es| ==> es[i].fingerprint != es[j].fingerprint
  }

  lemma {:induction false} OrderedMore(e: Entry, es: seq<Entry>)
    requires Ordered(es) && forall f :: f in es ==> Less(e, f)
    ensures Ordered([e] + es)
  {
    hide Less;
    var s := [e] + es;
    assert forall j :: 0 < j < |s| ==> s[j] == es[j - 1] && s[j] in es;
  }

  lemma {:induction false} Inserted(e: Entry, es: seq<Entry>)
    requires Ordered(es) && forall f :: f in es ==> f.fingerprint != e.fingerprint
    ensures Ordered(Insert(e, es)) && forall f :: f in Insert(e, es) <==> f == e || f in es
    decreases |es|
  {
    hide Less;
    if es != [] {
      var rest := es[1..];
      assert es == [es[0]] + rest;
      LessIsOrder(e, es[0], e);
      forall f | f in rest ensures Less(es[0], f) { var k :| 0 <= k < |rest| && rest[k] == f; assert es[k + 1] == f; }
      if Less(e, es[0]) {
        forall f | f in es ensures Less(e, f) { LessIsOrder(e, es[0], f); }
        OrderedMore(e, es);
      } else {
        Inserted(e, rest);
        OrderedMore(es[0], Insert(e, rest));
      }
    }
  }

  lemma {:induction false} SortedIsOrdered(es: seq<Entry>)
    requires DistinctPrints(es)
    ensures Ordered(Sorted(es)) && forall e :: e in Sorted(es) <==> e in es
    decreases |es|
  {
    hide Insert, Less;
    if es != [] {
      var k := |es| - 1;
      SortedIsOrdered(es[..k]);
      assert forall f :: f in Sorted(es[..k]) ==> f in es[..k];
      Inserted(es[k], Sorted(es[..k]));
      assert es == es[..k] + [es[k]];
    }
  }

  lemma {:induction false} HeadIsLeast(es: seq<Entry>, e: Entry)
    requires Ordered(es) && e in es
    ensures e == es[0] || Less(es[0], e)
  {
    hide Less;
    var i :| 0 <= i < |es| && es[i] == e;
  }

  /** An ordered list is fixed by what it holds. */
  lemma {:induction false} OrderedIsUnique(a: seq<Entry>, b: seq<Entry>)
    requires Ordered(a) && Ordered(b) && forall e :: e in a <==> e in b
    ensures a == b
    decreases |a|
  {
    hide Less;
    assert (a != [] ==> a[0] in a) && (b != [] ==> b[0] in b);
    if a != [] && b != [] {
      HeadIsLeast(a, b[0]);
      HeadIsLeast(b, a[0]);
      LessIsOrder(a[0], b[0], a[0]);
      var a', b' := a[1..], b[1..];
      forall e ensures e in a' <==> e in b' { TailHolds(a, b, e); TailHolds(b, a, e); }
      OrderedIsUnique(a', b');
      assert a == [a[0]] + a' && b == [b[0]] + b';
    }
  }

  lemma {:induction false} TailHolds(a: seq<Entry>, b: seq<Entry>, e: Entry)
    requires a != [] && b != [] && a[0] == b[0] && Ordered(a) && forall f :: f in a ==> f in b
    ensures e in a[1..] ==> e in b[1..]
  {
    hide Less;
    if e in a[1..] {
      var i :| 0 <= i < |a[1..]| && a[1..][i] == e;
      assert a[i + 1] == e && Less(a[0], e);
      LessIsOrder(e, e, e);
      assert e in b;
      var j :| 0 <= j < |b| && b[j] == e;
      assert b[1..][j - 1] == e;
    }
  }

  /** Whatever order the objects come in, there is at most one result. */
  lemma {:induction false} ConversionIsUnique(digest: Digest, m: Objects, es: seq<Entry>, c: Counts, es': seq<Entry>,
      c': Counts)
    requires IsConversion(digest, m, es, c) && IsConversion(digest, m, es', c')
    ensures es == es' && c == c'
  {
    hide Ordered, Marked, IsEntry;
    var certificates := Those(m, CERTIFICATE);
    forall e ensures e in es <==> e in es' {
      assert e in es <==> exists o :: o in certificates && Marked(m, o, Trusted) && IsEntry(digest, o, e);
    }
    OrderedIsUnique(es, es');
  }

  // ---- Filing the objects by identity ----

  ghost predicate Indexed(m: Objects, class_: string, index: map<Key, Obj>) {
    (forall k :: k in index ==> index[k] in Those(m, class_) && KeyOf(index[k]) == Some(k)) &&
    forall o :: o in Those(m, class_) ==>
      m[o] == 1 && KeyOf(o).Some? && KeyOf(o).value in index && index[KeyOf(o).value] == o
  }

  ghost predicate RootsSeen(m: Objects, roots: nat) {
    (roots == 0 <==> Those(m, ROOT_LIST) == {}) && (roots == 1 <==> OneRootList(m))
  }

  ghost predicate Lists(order: seq<Key>, index: map<Key, Obj>) {
    (forall k :: k in order <==> k in index) && forall i, j :: 0 <= i < j < |order| ==> order[i] != order[j]
  }

  lemma {:induction false} IndexSame(m: Objects, class_: string, index: map<Key, Obj>, o: Obj)
    requires Indexed(m, class_, index) && !Is(o, class_)
    ensures Indexed(m + multiset{o}, class_, index)
  {
    hide KeyOf, Is;
    assert Those(m + multiset{o}, class_) == Those(m, class_);
  }

  lemma {:induction false} IndexMore(m: Objects, class_: string, index: map<Key, Obj>, o: Obj, k: Key)
    requires Indexed(m, class_, index) && Is(o, class_) && KeyOf(o) == Some(k) && k !in index
    ensures Indexed(m + multiset{o}, class_, index[k := o])
  {
    hide KeyOf, Is;
    assert o !in Those(m, class_);
    assert Those(m + multiset{o}, class_) == Those(m, class_) + {o};
  }

  lemma {:induction false} RefusesDuplicate(m: Objects, all: Objects, class_: string, index: map<Key, Obj>, o: Obj)
    requires Indexed(m, class_, index) && m + multiset{o} <= all
    requires Is(o, class_) && KeyOf(o).Some? && KeyOf(o).value in index
    ensures !Distinct(all, class_)
  {
    hide KeyOf, Is;
    var q := index[KeyOf(o).value];
    assert q in Those(all, class_) && o in Those(all, class_);
    assert all[o] >= (m + multiset{o})[o] == m[o] + 1;
  }

  lemma {:induction false} IndexedIsDistinct(m: Objects, class_: string, index: map<Key, Obj>)
    requires Indexed(m, class_, index)
    ensures Distinct(m, class_)
  {
    hide KeyOf;
  }

  lemma {:induction false} MatchedByKeys(m: Objects, class_: string, other: string, index: map<Key, Obj>,
      others: map<Key, Obj>)
    requires Indexed(m, class_, index) && Indexed(m, other, others)
    ensures Matched(m, class_, other) <==> index.Keys <= others.Keys
  {
    hide KeyOf;
    if Matched(m, class_, other) {
      forall k | k in index ensures k in others {
        var p :| p in Those(m, other) && KeyOf(p) == KeyOf(index[k]);
      }
    }
    if index.Keys <= others.Keys {
      forall o | o in Those(m, class_) ensures exists p :: p in Those(m, other) && KeyOf(p) == KeyOf(o) {
        assert others[KeyOf(o).value] in Those(m, other);
      }
    }
  }

  lemma {:induction false} RootSame(m: Objects, o: Obj)
    requires !Is(o, ROOT_LIST)
    ensures Those(m + multiset{o}, ROOT_LIST) == Those(m, ROOT_LIST)
    ensures OneRootList(m + multiset{o}) <==> OneRootList(m)
  {
    hide Is;
    var all := m + multiset{o};
    assert Those(all, ROOT_LIST) == Those(m, ROOT_LIST);
    forall q | Those(m, ROOT_LIST) == {q} ensures all[q] == m[q] {
      assert q in Those(m, ROOT_LIST);
    }
  }

  lemma {:induction false} RootMore(m: Objects, o: Obj)
    requires Is(o, ROOT_LIST)
    ensures Those(m + multiset{o}, ROOT_LIST) != {}
    ensures OneRootList(m + multiset{o}) <==> Those(m, ROOT_LIST) == {}
  {
    hide Is;
    var all := m + multiset{o};
    assert Those(all, ROOT_LIST) == Those(m, ROOT_LIST) + {o};
    if Those(m, ROOT_LIST) == {} {
      assert o !in Those(m, ROOT_LIST);
      assert Those(all, ROOT_LIST) == {o} && all[o] == 1;
    }
    if OneRootList(all) {
      var q :| Those(all, ROOT_LIST) == {q} && all[q] == 1;
      assert o in Those(all, ROOT_LIST) && o == q;
      assert m[o] == 0 && Those(m, ROOT_LIST) <= {o};
      assert o !in Those(m, ROOT_LIST);
    }
  }

  lemma {:induction false} RootsMore(m: Objects, roots: nat, o: Obj)
    requires RootsSeen(m, roots)
    ensures RootsSeen(m + multiset{o}, if Is(o, ROOT_LIST) then roots + 1 else roots)
  {
    hide Is, Those, OneRootList;
    if Is(o, ROOT_LIST) { RootMore(m, o); } else { RootSame(m, o); }
  }

  ghost predicate Filed(m: Objects, certificates: map<Key, Obj>, order: seq<Key>, trust: map<Key, Obj>, roots: nat) {
    (forall o :: o in m ==> Known(o)) && Indexed(m, CERTIFICATE, certificates) && Indexed(m, TRUST, trust) &&
    RootsSeen(m, roots) && Lists(order, certificates)
  }

  lemma {:induction false} FileMore(m: Objects, certificates: map<Key, Obj>, order: seq<Key>, trust: map<Key, Obj>,
      roots: nat, o: Obj)
    requires Filed(m, certificates, order, trust, roots) && Known(o)
    ensures Is(o, ROOT_LIST) ==> Filed(m + multiset{o}, certificates, order, trust, roots + 1)
    ensures Is(o, CERTIFICATE) && KeyOf(o).value !in certificates ==>
      Filed(m + multiset{o}, certificates[KeyOf(o).value := o], order + [KeyOf(o).value], trust, roots)
    ensures Is(o, TRUST) && KeyOf(o).value !in trust ==>
      Filed(m + multiset{o}, certificates, order, trust[KeyOf(o).value := o], roots)
  {
    hide Indexed, RootsSeen, KeyOf, DerOf;
    RootsMore(m, roots, o);
    if Is(o, ROOT_LIST) {
      IndexSame(m, CERTIFICATE, certificates, o);
      IndexSame(m, TRUST, trust, o);
    } else {
      var k := KeyOf(o).value;
      if Is(o, CERTIFICATE) && k !in certificates {
        IndexMore(m, CERTIFICATE, certificates, o, k);
        IndexSame(m, TRUST, trust, o);
      }
      if Is(o, TRUST) && k !in trust {
        IndexSame(m, CERTIFICATE, certificates, o);
        IndexMore(m, TRUST, trust, o, k);
      }
    }
  }

  /** The first loop of convert: certificates and trust records by their identity. */
  method File(digest: Digest, objects: seq<Obj>)
    returns (r: Result<(map<Key, Obj>, seq<Key>, map<Key, Obj>, nat), Refusal>)
    ensures r.Err? ==> !Acceptable(digest, multiset(objects))
    ensures r.Ok? ==> Filed(multiset(objects), r.value.0, r.value.1, r.value.2, r.value.3)
  {
    hide Filed, Indexed, Distinct, OneRootList, Matched, KeyOf, DerOf, LabelOf, SameBytes, AuthOf;
    var certificates: map<Key, Obj>, order: seq<Key>, trust: map<Key, Obj>, rootLists := map[], [], map[], 0;
    NothingFiled();
    ghost var all := multiset(objects);
    var i := 0;
    while i < |objects|
      invariant 0 <= i <= |objects|
      invariant Filed(multiset(objects[..i]), certificates, order, trust, rootLists)
    {
      var o := objects[i];
      ghost var m := multiset(objects[..i]);
      OneMoreObject(objects, i);
      IndexesOf(m, certificates, order, trust, rootLists);
      if Known(o) { FileMore(m, certificates, order, trust, rootLists, o); }
      i := i + 1;
      if Is(o, ROOT_LIST) {
        rootLists := rootLists + 1;
      } else if Is(o, CERTIFICATE) {
        var key := KeyOf(o);
        if key.None? { return Err(NoIdentity); }
        if DerOf(o).None? { return Err(NoDer); }
        if key.value in certificates {
          RefusesDuplicate(m, all, CERTIFICATE, certificates, o);
          return Err(DuplicateCertificate);
        }
        certificates := certificates[key.value := o];
        order := order + [key.value];
      } else if Is(o, TRUST) {
        var key := KeyOf(o);
        if key.None? { return Err(NoIdentity); }
        if key.value in trust {
          RefusesDuplicate(m, all, TRUST, trust, o);
          return Err(DuplicateTrust);
        }
        trust := trust[key.value := o];
      } else {
        return Err(UnsupportedClass);
      }
    }
    assert objects[..i] == objects;
    return Ok((certificates, order, trust, rootLists));
  }

  lemma {:induction false} NothingFiled()
    ensures Filed(multiset{}, map[], [], map[], 0)
  {
  }

  lemma {:induction false} IndexesOf(m: Objects, certificates: map<Key, Obj>, order: seq<Key>, trust: map<Key, Obj>,
      roots: nat)
    requires Filed(m, certificates, order, trust, roots)
    ensures Indexed(m, CERTIFICATE, certificates) && Indexed(m, TRUST, trust) && RootsSeen(m, roots)
    ensures Lists(order, certificates) && forall o :: o in m ==> Known(o)
  {
    hide Indexed, RootsSeen, Lists, Known;
  }

  lemma {:induction false} OneMoreObject(objects: seq<Obj>, i: nat)
    requires i < |objects|
    ensures multiset(objects[..i + 1]) == multiset(objects[..i]) + multiset{objects[i]}
    ensures multiset(objects[..i + 1]) <= multiset(objects) && objects[i] in multiset(objects)
  {
    assert objects[..i + 1] == objects[..i] + [objects[i]];
    assert objects == objects[..i + 1] + objects[i + 1..];
  }

  // ---- Counting and choosing ----

  lemma {:induction false} RecordIs(m: Objects, trust: map<Key, Obj>, o: Obj, k: Key)
    requires Indexed(m, TRUST, trust) && KeyOf(o) == Some(k) && k in trust
    ensures forall p :: RecordOf(m, o, p) <==> p == trust[k]
    ensures forall a :: Marked(m, o, a) <==> AuthOf(trust[k]) == Some(a)
    ensures Late(m, o) <==> AuthOf(trust[k]) == Some(Trusted) && HasCutoff(trust[k])
  {
    hide KeyOf, AuthOf, HasCutoff;
    assert RecordOf(m, o, trust[k]);
  }

  predicate PrintsOf(digest: Digest, among: set<Obj>, prints: map<string, string>) {
    (forall o :: o in among ==> DerOf(o).Some? && digest(DerOf(o).value) in prints) &&
    forall f :: f in prints.Keys ==> exists o :: o in among && DerOf(o).Some? && digest(DerOf(o).value) == f
  }

  /** The certificates counted so far. */
  ghost predicate Chosen(digest: Digest, m: Objects, among: set<Obj>, es: seq<Entry>, c: Counts,
      prints: map<string, string>) {
    Settled(digest, m, among, es, c) && PrintsOf(digest, among, prints)
  }

  ghost predicate Settled(digest: Digest, m: Objects, among: set<Obj>, es: seq<Entry>, c: Counts) {
    ListsRoots(digest, m, among, es) && DistinctPrints(es) && Tallied(m, among, c) &&
    (forall o :: o in among ==> LabelOf(o).Some?) &&
    forall o, p :: o in among && p in among && SameBytes(digest, o, p) ==> o == p
  }

  /** The counts with one more certificate of this mark. */
  function Plus(c: Counts, a: Auth, cutoff: bool): Counts {
    match a
    case Distrusted => c.(distrusted := c.distrusted + 1)
    case OtherPurpose => c.(otherPurpose := c.otherPurpose + 1)
    case Trusted =>
      c.(trusted := c.trusted + 1, distrustAfter := if cutoff then c.distrustAfter + 1 else c.distrustAfter)
  }

  lemma {:induction false} OneMoreWith(m: Objects, among: set<Obj>, o: Obj, a: Auth)
    requires o !in among
    ensures |With(m, among + {o}, a)| == |With(m, among, a)| + if Marked(m, o, a) then 1 else 0
  {
    hide Marked;
    assert With(m, among + {o}, a) == With(m, among, a) + if Marked(m, o, a) then {o} else {};
  }

  lemma {:induction false} OneMoreLate(m: Objects, among: set<Obj>, o: Obj)
    requires o !in among
    ensures |WithCutoff(m, among + {o})| == |WithCutoff(m, among)| + if Late(m, o) then 1 else 0
  {
    hide Late;
    assert WithCutoff(m, among + {o}) == WithCutoff(m, among) + if Late(m, o) then {o} else {};
  }

  lemma {:induction false} TallyMore(m: Objects, among: set<Obj>, c: Counts, o: Obj, a: Auth, cutoff: bool)
    requires Tallied(m, among, c) && o !in among
    requires forall b :: Marked(m, o, b) <==> a == b
    requires Late(m, o) <==> a == Trusted && cutoff
    ensures Tallied(m, among + {o}, Plus(c, a, cutoff))
  {
    hide Marked, Late, With, WithCutoff;
    OneMoreWith(m, among, o, Trusted);
    OneMoreWith(m, among, o, Distrusted);
    OneMoreWith(m, among, o, OtherPurpose);
    OneMoreLate(m, among, o);
  }

  lemma {:induction false} PrintMore(digest: Digest, among: set<Obj>, prints: map<string, string>, o: Obj,
      label': string)
    requires PrintsOf(digest, among, prints) && DerOf(o).Some?
    ensures PrintsOf(digest, among + {o}, prints[digest(DerOf(o).value) := label'])
  {
    hide DerOf;
  }

  lemma {:induction false} RootsMoreListed(digest: Digest, m: Objects, among: set<Obj>, es: seq<Entry>, o: Obj,
      e: Entry)
    requires ListsRoots(digest, m, among, es) && IsEntry(digest, o, e)
    ensures Marked(m, o, Trusted) ==> ListsRoots(digest, m, among + {o}, es + [e])
    ensures !Marked(m, o, Trusted) ==> ListsRoots(digest, m, among + {o}, es)
  {
    hide Marked, LabelOf, DerOf;
    if Marked(m, o, Trusted) {
      forall f
        ensures f in es + [e] <==> exists p :: p in among + {o} && Marked(m, p, Trusted) && IsEntry(digest, p, f)
      {
        if f in es {
          var p :| p in among && Marked(m, p, Trusted) && IsEntry(digest, p, f);
          assert p in among + {o};
        }
        if f == e { assert o in among + {o}; }
      }
    } else {
      forall f ensures f in es <==> exists p :: p in among + {o} && Marked(m, p, Trusted) && IsEntry(digest, p, f) {
        if f in es {
          var p :| p in among && Marked(m, p, Trusted) && IsEntry(digest, p, f);
          assert p in among + {o};
        }
      }
    }
  }

  lemma {:induction false} ListedPrints(digest: Digest, m: Objects, among: set<Obj>, es: seq<Entry>,
      prints: map<string, string>, e: Entry)
    requires ListsRoots(digest, m, among, es) && DistinctPrints(es) && PrintsOf(digest, among, prints)
    requires e.fingerprint !in prints
    ensures DistinctPrints(es + [e])
  {
    hide Marked, LabelOf, DerOf;
    forall i | 0 <= i < |es| ensures es[i].fingerprint in prints {
      assert es[i] in es;
      var o :| o in among && Marked(m, o, Trusted) && IsEntry(digest, o, es[i]);
    }
  }

  lemma {:induction false} ChooseMore(digest: Digest, m: Objects, among: set<Obj>, es: seq<Entry>, c: Counts,
      prints: map<string, string>, o: Obj, e: Entry, a: Auth, cutoff: bool)
    requires Chosen(digest, m, among, es, c, prints) && o !in among
    requires IsEntry(digest, o, e) && e.fingerprint !in prints
    requires forall b :: Marked(m, o, b) <==> a == b
    requires Late(m, o) <==> a == Trusted && cutoff
    ensures Chosen(digest, m, among + {o}, if a == Trusted then es + [e] else es, Plus(c, a, cutoff),
      prints[e.fingerprint := e.name])
  {
    hide Marked, Late, LabelOf, DerOf, Tallied, ListsRoots, DistinctPrints;
    TallyMore(m, among, c, o, a, cutoff);
    PrintMore(digest, among, prints, o, e.name);
    RootsMoreListed(digest, m, among, es, o, e);
    ListedPrints(digest, m, among, es, prints, e);
    hide PrintsOf;
    NewPrint(digest, among, prints, o);
  }

  lemma {:induction false} NewPrint(digest: Digest, among: set<Obj>, prints: map<string, string>, o: Obj)
    requires PrintsOf(digest, among, prints) && DerOf(o).Some? && digest(DerOf(o).value) !in prints
    ensures forall p :: p in among ==> !SameBytes(digest, o, p) && !SameBytes(digest, p, o)
  {
    hide DerOf;
  }

  lemma {:induction false} ChosenIsSettled(digest: Digest, m: Objects, among: set<Obj>, es: seq<Entry>, c: Counts,
      prints: map<string, string>)
    requires Chosen(digest, m, among, es, c, prints)
    ensures Settled(digest, m, among, es, c)
  {
    hide Settled;
  }

  lemma {:induction false} NothingChosen(digest: Digest, m: Objects, c: Counts)
    requires c.trusted == c.distrusted == c.otherPurpose == c.untrusted == c.distrustAfter == 0
    ensures Chosen(digest, m, {}, [], c, map[])
  {
    assert forall a :: With(m, {}, a) == {};
    assert WithCutoff(m, {}) == {};
  }

  /** The certificates of the first i identities. */
  predicate Taken(certificates: map<Key, Obj>, order: seq<Key>, i: nat, among: set<Obj>) {
    i <= |order| && (forall j :: 0 <= j < |order| ==> order[j] in certificates) &&
    (forall j :: 0 <= j < i ==> certificates[order[j]] in among) &&
    forall o :: o in among ==> exists j :: 0 <= j < i && certificates[order[j]] == o
  }

  lemma {:induction false} TakeNext(m: Objects, certificates: map<Key, Obj>, order: seq<Key>, i: nat, among: set<Obj>)
    requires Taken(certificates, order, i, among) && i < |order|
    requires Lists(order, certificates) && Indexed(m, CERTIFICATE, certificates)
    ensures var cert := certificates[order[i]];
      cert !in among && cert in Those(m, CERTIFICATE) && KeyOf(cert) == Some(order[i]) &&
      Taken(certificates, order, i + 1, among + {cert}) && among <= Those(m, CERTIFICATE)
  {
    hide KeyOf, Is;
    var cert := certificates[order[i]];
    forall j | 0 <= j < i ensures certificates[order[j]] != cert {
      assert order[j] in order && order[j] != order[i];
    }
    assert order[i] in order;
  }

  lemma {:induction false} AllTaken(m: Objects, certificates: map<Key, Obj>, order: seq<Key>, among: set<Obj>)
    requires Taken(certificates, order, |order|, among)
    requires Lists(order, certificates) && Indexed(m, CERTIFICATE, certificates)
    ensures among == Those(m, CERTIFICATE) && |certificates| == |among|
  {
    hide KeyOf, Is;
    forall o | o in Those(m, CERTIFICATE) ensures o in among {
      var k := KeyOf(o).value;
      assert k in order;
      var j :| 0 <= j < |order| && order[j] == k;
    }
    IndexSize(m, CERTIFICATE, certificates);
  }

  lemma {:induction false} IndexSize(m: Objects, class_: string, index: map<Key, Obj>)
    requires Indexed(m, class_, index)
    ensures |index| == |Those(m, class_)|
  {
    hide KeyOf, Is;
    KeysApart(index.Keys, index);
    assert (set k | k in index.Keys :: index[k]) == Those(m, class_);
  }

  lemma {:induction false} KeysApart(keys: set<Key>, index: map<Key, Obj>)
    requires forall k :: k in keys ==> k in index && KeyOf(index[k]) == Some(k)
    ensures |set k | k in keys :: index[k]| == |keys|
    decreases |keys|
  {
    hide KeyOf;
    var all := set k | k in keys :: index[k];
    if keys == {} {
      assert all == {};
    } else {
      var x :| x in keys;
      var rest := keys - {x};
      KeysApart(rest, index);
      assert keys == rest + {x};
      assert all == (set k | k in rest :: index[k]) + {index[x]};
      assert index[x] !in (set k | k in rest :: index[k]);
    }
  }

  lemma {:induction false} KnownHasDer(m: Objects, o: Obj)
    requires o in Those(m, CERTIFICATE) && Known(o)
    ensures DerOf(o).Some?
  {
    hide KeyOf, DerOf;
    assert CERTIFICATE[4] == 'C' && TRUST[4] == 'N' && ROOT_LIST[4] == 'N';
  }

  lemma {:induction false} SamePrintRefused(digest: Digest, m: Objects, among: set<Obj>, es: seq<Entry>, c: Counts,
      prints: map<string, string>, o: Obj)
    requires Chosen(digest, m, among, es, c, prints) && among <= Those(m, CERTIFICATE)
    requires o in Those(m, CERTIFICATE) - among
    requires DerOf(o).Some? && digest(DerOf(o).value) in prints
    ensures !Acceptable(digest, m)
  {
    hide KeyOf, DerOf, LabelOf, Is, OneRootList, Distinct, Matched, AuthOf, Known, Settled;
    var p :| p in among && DerOf(p).Some? && digest(DerOf(p).value) == digest(DerOf(o).value);
    assert SameBytes(digest, o, p);
  }

  lemma {:induction false} UnsafeRefused(digest: Digest, m: Objects, o: Obj)
    requires (o in Those(m, CERTIFICATE) && LabelOf(o).None?) || (o in Those(m, TRUST) && AuthOf(o).None?)
    ensures !Acceptable(digest, m)
  {
    hide KeyOf, DerOf, LabelOf, Is, OneRootList, Distinct, Matched, AuthOf, Known;
  }

  lemma {:induction false} RecordsMarked(m: Objects, certificates: map<Key, Obj>, order: seq<Key>, trust: map<Key, Obj>)
    requires Indexed(m, TRUST, trust) && Lists(order, certificates) && certificates.Keys == trust.Keys
    requires forall j :: 0 <= j < |order| ==> order[j] in trust && AuthOf(trust[order[j]]).Some?
    ensures forall p :: p in Those(m, TRUST) ==> AuthOf(p).Some?
  {
    hide KeyOf, Is, AuthOf;
    forall p | p in Those(m, TRUST) ensures AuthOf(p).Some? {
      var k := KeyOf(p).value;
      assert k in order;
      var j :| 0 <= j < |order| && order[j] == k;
    }
  }

  lemma {:induction false} NextCertificate(m: Objects, certificates: map<Key, Obj>, order: seq<Key>,
      trust: map<Key, Obj>, i: nat, among: set<Obj>)
    requires Taken(certificates, order, i, among) && i < |order| && Lists(order, certificates)
    requires Indexed(m, CERTIFICATE, certificates) && Indexed(m, TRUST, trust) && certificates.Keys == trust.Keys
    requires forall o :: o in m ==> Known(o)
    ensures order[i] in certificates && order[i] in trust
    ensures var (cert, record) := (certificates[order[i]], trust[order[i]]);
      cert !in among && cert in Those(m, CERTIFICATE) && record in Those(m, TRUST) && DerOf(cert).Some? &&
      (forall a :: Marked(m, cert, a) <==> AuthOf(record) == Some(a)) &&
      (Late(m, cert) <==> AuthOf(record) == Some(Trusted) && HasCutoff(record)) &&
      Taken(certificates, order, i + 1, among + {cert}) && among <= Those(m, CERTIFICATE)
  {
    hide KeyOf, DerOf, AuthOf, HasCutoff, Is, Marked, Late, Known;
    assert order[i] in order;
    TakeNext(m, certificates, order, i, among);
    RecordIs(m, trust, certificates[order[i]], order[i]);
    KnownHasDer(m, certificates[order[i]]);
  }

  /** The second loop of convert: the counts, and the entries of the trusted certificates as yet unsorted. */
  method Choose(digest: Digest, ghost m: Objects, certificates: map<Key, Obj>, order: seq<Key>, trust: map<Key, Obj>)
    returns (r: Result<(seq<Entry>, Counts), Refusal>)
    requires Indexed(m, CERTIFICATE, certificates) && Indexed(m, TRUST, trust) && Lists(order, certificates)
    requires certificates.Keys == trust.Keys && forall o :: o in m ==> Known(o)
    ensures r.Err? ==> !Acceptable(digest, m)
    ensures r.Ok? ==> Settled(digest, m, Those(m, CERTIFICATE), r.value.0, r.value.1)
    ensures r.Ok? ==> r.value.1.certificates == |certificates| && r.value.1.trustObjects == |trust|
    ensures r.Ok? ==> forall p :: p in Those(m, TRUST) ==> AuthOf(p).Some?
  {
    hide KeyOf, DerOf, LabelOf, AuthOf, HasCutoff, Is, Marked, Late, Settled, Acceptable, Known, Taken, Chosen, Indexed,
      Lists, Those;
    var counts := Counts(|certificates|, |trust|, 0, 0, 0, 0, 0);
    var entries: seq<Entry> := [];
    var allFingerprints: map<string, string> := map[];
    ghost var among: set<Obj> := {};
    NothingChosen(digest, m, counts);
    var i := 0;
    assert Taken(certificates, order, 0, {}) by { NoneTaken(certificates, order); }
    while i < |order|
      invariant 0 <= i <= |order| && Taken(certificates, order, i, among)
      invariant Chosen(digest, m, among, entries, counts, allFingerprints)
      invariant counts.certificates == |certificates| && counts.trustObjects == |trust|
      invariant forall j :: 0 <= j < i ==> order[j] in trust && AuthOf(trust[order[j]]).Some?
    {
      var key := order[i];
      NextCertificate(m, certificates, order, trust, i, among);
      var cert := certificates[key];
      var der := DerOf(cert).value;
      var fingerprint := digest(der);
      if fingerprint in allFingerprints {
        SamePrintRefused(digest, m, among, entries, counts, allFingerprints, cert);
        return Err(DuplicateBytes);
      }
      var name := LabelOf(cert);
      if name.None? {
        UnsafeRefused(digest, m, cert);
        return Err(UnsafeLabel);
      }
      var record := trust[key];
      var auth := AuthOf(record);
      if auth.None? {
        UnsafeRefused(digest, m, record);
        return Err(UnknownAuth);
      }
      var entry := Entry(name.value, fingerprint, der);
      ChooseMore(digest, m, among, entries, counts, allFingerprints, cert, entry, auth.value, HasCutoff(record));
      allFingerprints := allFingerprints[fingerprint := name.value];
      match auth.value {
        case Distrusted => counts := counts.(distrusted := counts.distrusted + 1);
        case OtherPurpose => counts := counts.(otherPurpose := counts.otherPurpose + 1);
        case Trusted =>
          counts := counts.(trusted := counts.trusted + 1);
          if HasCutoff(record) { counts := counts.(distrustAfter := counts.distrustAfter + 1); }
          entries := entries + [entry];
      }
      among := among + {cert};
      i := i + 1;
    }
    AllTaken(m, certificates, order, among);
    ChosenIsSettled(digest, m, among, entries, counts, allFingerprints);
    RecordsMarked(m, certificates, order, trust);
    return Ok((entries, counts));
  }

  lemma {:induction false} NoneTaken(certificates: map<Key, Obj>, order: seq<Key>)
    requires Lists(order, certificates)
    ensures Taken(certificates, order, 0, {})
  {
    assert forall j :: 0 <= j < |order| ==> order[j] in order;
  }

  lemma {:induction false} AcceptedWhenChosen(digest: Digest, m: Objects, certificates: map<Key, Obj>, order: seq<Key>,
      trust: map<Key, Obj>, es: seq<Entry>, c: Counts)
    requires Filed(m, certificates, order, trust, 1) && certificates.Keys == trust.Keys
    requires Settled(digest, m, Those(m, CERTIFICATE), es, c)
    requires c.certificates == |certificates| && c.trustObjects == |trust|
    requires forall p :: p in Those(m, TRUST) ==> AuthOf(p).Some?
    ensures Acceptable(digest, m) && IsConversion(digest, m, Sorted(es), c)
  {
    hide KeyOf, DerOf, LabelOf, AuthOf, Is, Marked, OneRootList, Distinct, Matched, Indexed, Those, Known;
    hide Sorted, Ordered, Tallied, SameBytes, IsEntry;
    IndexedIsDistinct(m, CERTIFICATE, certificates);
    IndexedIsDistinct(m, TRUST, trust);
    MatchedByKeys(m, CERTIFICATE, TRUST, certificates, trust);
    MatchedByKeys(m, TRUST, CERTIFICATE, trust, certificates);
    IndexSize(m, CERTIFICATE, certificates);
    IndexSize(m, TRUST, trust);
    SortedIsOrdered(es);
    forall e
      ensures e in Sorted(es) <==>
        exists o :: o in Those(m, CERTIFICATE) && Marked(m, o, Trusted) && IsEntry(digest, o, e)
    {
    }
  }

  /** convert, after parsing: refused exactly when the objects are not acceptable, in whatever order they come; else the
      trusted certificates in order, and the counts. */
  method Convert(digest: Digest, objects: seq<Obj>) returns (r: Result<(seq<Entry>, Counts), Refusal>)
    ensures r.Ok? <==> Acceptable(digest, multiset(objects))
    ensures r.Ok? ==> IsConversion(digest, multiset(objects), r.value.0, r.value.1)
  {
    hide Acceptable, IsConversion, Filed, Settled, Sorted;
    ghost var m := multiset(objects);
    var filed := File(digest, objects);
    if filed.Err? { return Err(filed.error); }
    var (certificates, order, trust, rootLists) := filed.value;
    IndexesOf(m, certificates, order, trust, rootLists);
    if rootLists != 1 {
      NoRootRefused(digest, m, rootLists);
      return Err(RootLists);
    }
    if certificates.Keys != trust.Keys {
      MismatchRefused(digest, m, certificates, trust);
      return Err(Mismatch);
    }
    var chosen := Choose(digest, m, certificates, order, trust);
    if chosen.Err? { return Err(chosen.error); }
    var (entries, counts) := chosen.value;
    AcceptedWhenChosen(digest, m, certificates, order, trust, entries, counts);
    return Ok((Sorted(entries), counts));
  }

  lemma {:induction false} NoRootRefused(digest: Digest, m: Objects, roots: nat)
    requires RootsSeen(m, roots) && roots != 1
    ensures !Acceptable(digest, m)
  {
  }

  lemma {:induction false} MismatchRefused(digest: Digest, m: Objects, certificates: map<Key, Obj>,
      trust: map<Key, Obj>)
    requires Indexed(m, CERTIFICATE, certificates) && Indexed(m, TRUST, trust) && certificates.Keys != trust.Keys
    ensures !Acceptable(digest, m)
  {
    hide KeyOf, DerOf, LabelOf, AuthOf, Is, OneRootList, Distinct, Matched, Indexed, Known, SameBytes;
    MatchedByKeys(m, CERTIFICATE, TRUST, certificates, trust);
    MatchedByKeys(m, TRUST, CERTIFICATE, trust, certificates);
  }

  // ---- The counts add up ----

  lemma {:induction false} SubsetSize<T>(a: set<T>, b: set<T>)
    requires a <= b
    ensures |a| <= |b|
  {
    assert b == a + (b - a);
  }

  lemma {:induction false} KeyCount(s: set<Obj>)
    requires forall o, p :: o in s && p in s && KeyOf(o) == KeyOf(p) ==> o == p
    ensures |set o | o in s :: KeyOf(o)| == |s|
    decreases |s|
  {
    hide KeyOf;
    if s == {} {
      assert (set o | o in s :: KeyOf(o)) == {};
    } else {
      var x :| x in s;
      KeyCount(s - {x});
      assert s == (s - {x}) + {x};
      assert (set o | o in s :: KeyOf(o)) == (set o | o in s - {x} :: KeyOf(o)) + {KeyOf(x)};
    }
  }

  lemma {:induction false} SameCount(m: Objects)
    requires Distinct(m, CERTIFICATE) && Distinct(m, TRUST) && Matched(m, CERTIFICATE, TRUST)
    requires Matched(m, TRUST, CERTIFICATE)
    ensures |Those(m, CERTIFICATE)| == |Those(m, TRUST)|
  {
    hide KeyOf, Is;
    var a, b := Those(m, CERTIFICATE), Those(m, TRUST);
    KeyCount(a);
    KeyCount(b);
    assert (set o | o in a :: KeyOf(o)) == (set o | o in b :: KeyOf(o));
  }

  lemma {:induction false} OneMarkEach(m: Objects)
    requires Distinct(m, TRUST) && Matched(m, CERTIFICATE, TRUST)
    requires forall p :: p in Those(m, TRUST) ==> AuthOf(p).Some?
    ensures var s := Those(m, CERTIFICATE);
      |With(m, s, Trusted)| + |With(m, s, Distrusted)| + |With(m, s, OtherPurpose)| == |s|
  {
    hide Marked, Distinct, Matched, Those, AuthOf;
    var s := Those(m, CERTIFICATE);
    var t, d, p := With(m, s, Trusted), With(m, s, Distrusted), With(m, s, OtherPurpose);
    forall o | o in s ensures o in t + d + p { SomeMark(m, o); }
    forall o, a, b | Marked(m, o, a) && Marked(m, o, b) ensures a == b { OneMark(m, o, a, b); }
    assert s == t + d + p;
    assert t !! d && (t + d) !! p;
  }

  lemma {:induction false} OneMark(m: Objects, o: Obj, a: Auth, b: Auth)
    requires Distinct(m, TRUST) && Marked(m, o, a) && Marked(m, o, b)
    ensures a == b
  {
    hide KeyOf, Is, AuthOf;
  }

  lemma {:induction false} SomeMark(m: Objects, o: Obj)
    requires Matched(m, CERTIFICATE, TRUST) && o in Those(m, CERTIFICATE)
    requires forall p :: p in Those(m, TRUST) ==> AuthOf(p).Some?
    ensures Marked(m, o, Trusted) || Marked(m, o, Distrusted) || Marked(m, o, OtherPurpose)
  {
    hide KeyOf, Is, AuthOf;
    var q :| q in Those(m, TRUST) && KeyOf(q) == KeyOf(o);
    assert RecordOf(m, o, q) && Marked(m, o, AuthOf(q).value);
    match AuthOf(q).value case Trusted => case Distrusted => case OtherPurpose =>
  }

  function EntryOf(digest: Digest, o: Obj): Entry
    requires LabelOf(o).Some? && DerOf(o).Some?
  {
    Entry(LabelOf(o).value, digest(DerOf(o).value), DerOf(o).value)
  }

  lemma {:induction false} OrderedCount(es: seq<Entry>)
    requires Ordered(es)
    ensures |set e | e in es| == |es|
    decreases |es|
  {
    hide Less;
    if es == [] {
      assert (set e | e in es) == {};
    } else {
      var k := |es| - 1;
      OrderedCount(es[..k]);
      assert es == es[..k] + [es[k]];
      assert (set e | e in es) == (set e | e in es[..k]) + {es[k]};
      forall e | e in es[..k] ensures e != es[k] { LessIsOrder(e, e, e); }
    }
  }

  lemma {:induction false} EntryCount(digest: Digest, s: set<Obj>)
    requires forall o :: o in s ==> LabelOf(o).Some? && DerOf(o).Some?
    requires forall o, p :: o in s && p in s && SameBytes(digest, o, p) ==> o == p
    ensures |set o | o in s :: EntryOf(digest, o)| == |s|
    decreases |s|
  {
    hide LabelOf, DerOf;
    var all := set o | o in s :: EntryOf(digest, o);
    if s == {} {
      assert all == {};
    } else {
      var x :| x in s;
      var rest := s - {x};
      EntryCount(digest, rest);
      assert s == rest + {x};
      var image := set o | o in rest :: EntryOf(digest, o);
      assert all == image + {EntryOf(digest, x)};
      forall o | o in rest ensures EntryOf(digest, o) != EntryOf(digest, x) {
        assert !SameBytes(digest, o, x);
      }
      assert EntryOf(digest, x) !in image;
    }
  }

  lemma {:induction false} RootCount(digest: Digest, m: Objects, es: seq<Entry>)
    requires Acceptable(digest, m) && Ordered(es) && ListsRoots(digest, m, Those(m, CERTIFICATE), es)
    ensures |es| == |With(m, Those(m, CERTIFICATE), Trusted)|
  {
    hide KeyOf, DerOf, LabelOf, Is, AuthOf, OneRootList, Distinct, Matched, Marked, Ordered, Known;
    var t := With(m, Those(m, CERTIFICATE), Trusted);
    forall o | o in t ensures DerOf(o).Some? { KnownHasDer(m, o); }
    OrderedCount(es);
    EntryCount(digest, t);
    var image := set o | o in t :: EntryOf(digest, o);
    forall e ensures e in es <==> e in image {
      if e in es {
        var o :| o in Those(m, CERTIFICATE) && Marked(m, o, Trusted) && IsEntry(digest, o, e);
        assert o in t && e == EntryOf(digest, o);
      }
      if e in image {
        var o :| o in t && e == EntryOf(digest, o);
        assert IsEntry(digest, o, e);
      }
    }
    assert (set e | e in es) == image;
  }

  /** Every certificate is counted once: trusted, distrusted or for other purposes; and each has its one trust
      record. */
  lemma {:induction false} CountsAddUp(digest: Digest, m: Objects, es: seq<Entry>, c: Counts)
    requires Acceptable(digest, m) && IsConversion(digest, m, es, c)
    ensures c.trusted + c.distrusted + c.otherPurpose == c.certificates == c.trustObjects
    ensures |es| == c.trusted && c.distrustAfter <= c.trusted
  {
    hide KeyOf, DerOf, LabelOf, Is, AuthOf, OneRootList, Distinct, Matched, Ordered, Known, SameBytes, ListsRoots;
    hide Those;
    SameCount(m);
    OneMarkEach(m);
    RootCount(digest, m, es);
    var s := Those(m, CERTIFICATE);
    SubsetSize(WithCutoff(m, s), With(m, s, Trusted));
  }
}

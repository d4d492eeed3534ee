/** The one-pass reader of linux-firmware's WHENCE file (sort-firmware.py, parse_whence).

    A line is what the script's patterns extract from it: a rule of dashes, a Driver: line, a File:/RawFile: or
    Link: listing, or prose with the vendor texts it cites and the words of a licence declaration. */
module Whence {
  import opened Prelude

  /** What a licence statement gives a path: a text to ship, or an SPDX term. */
  datatype Item = Text(name: string) | Term(spdx: string)

  datatype Line =
    | Rule
    | Driver(driver: string)
    | File(path: string)
    | Link(link: string, target: string)
    | Prose(tokens: seq<string>, words: Option<string>)

  /** `items` is the defaultdict file_items: an absent path has no items. */
  datatype Entry = Entry(
    driver: string, files: seq<string>, links: seq<(string, string)>, section: nat, items: map<string, set<Item>>)

  /** An unrecognised licence declaration, with the driver in force when its run ended. */
  datatype Problem = Unrecognised(driver: string, text: string)

  function ItemsOf(e: Entry, path: string): set<Item> {
    if path in e.items then e.items[path] else {}
  }

  // ---- Worded declarations (FREE_LICENCES, classify) ----

  datatype Free = Free(prefix: string, atBoundary: bool, spdx: string, text: string)

  const ROWS := 10

  /** Row k of the table. */
  function FreeLicence(k: nat): Free
    requires k < ROWS
  {
    match k
    case 0 => Free("Allegedly GPLv2+", false, "GPL-2.0-or-later", "GPL-2.0")
    case 1 => Free("Allegedly GPLv2", true, "GPL-2.0-only", "GPL-2.0")
    case 2 => Free("Allegedly GPL", true, "GPL-1.0-or-later", "GPL-2.0")
    case 3 => Free("GPLv2 or later", true, "GPL-2.0-or-later", "GPL-2.0")
    case 4 => Free("GPLv2 or OpenIB.org BSD", true, "GPL-2.0-only", "GPL-2.0")
    case 5 => Free("Dual GPLv2/MPL", true, "GPL-2.0-only", "GPL-2.0")
    case 6 => Free("GPLv2.", false, "GPL-2.0-only", "GPL-2.0")
    case 7 => Free("GPLv3.", false, "GPL-3.0-only", "GPL-3.0-only")
    case 8 => Free("MIT", true, "MIT", "MIT")
    case _ => Free("Apache-2.0", true, "Apache-2.0", "Apache-2.0")
  }

  predicate WordChar(c: char) {
    'a' <= c <= 'z' || 'A' <= c <= 'Z' || '0' <= c <= '9' || c == '_'
  }

  /** The anchored pattern of a table row: its literal prefix, then a word boundary where the pattern ends in one. */
  predicate Matches(row: Free, text: string) {
    row.prefix <= text &&
    (row.atBoundary ==> |text| == |row.prefix| || !WordChar(text[|row.prefix|]))
  }

  /** The first row from k on that matches, as the loop over the table finds it. */
  function FirstMatch(text: string, k: nat): Option<Free>
    requires k <= ROWS
    decreases ROWS - k
  {
    if k == ROWS then None
    else if Matches(FreeLicence(k), text) then Some(FreeLicence(k))
    else FirstMatch(text, k + 1)
  }

  function Classify(text: string): Option<Free> {
    FirstMatch(text, 0)
  }

  /** The items of one worded declaration. */
  function WordItems(text: string): set<Item> {
    match Classify(text)
    case None => {}
    case Some(row) => {Term(row.spdx), Text(row.text)}
  }

  // ---- The rule a reader of WHENCE would state ----

  predicate Lists(l: Line) { l.File? || l.Link? }

  predicate Stops(l: Line) { Lists(l) || l.Rule? }

  function PathOf(l: Line): string
    requires Lists(l)
  {
    if l.File? then l.path else l.link
  }

  /** How many Driver: lines precede line n; a listing at n belongs to the last of those blocks. */
  function Drivers(lines: seq<Line>, n: nat): (d: nat)
    requires n <= |lines|
    ensures d <= n
  {
    if n == 0 then 0 else Drivers(lines, n - 1) + if lines[n - 1].Driver? then 1 else 0
  }

  function Rules(lines: seq<Line>, n: nat): nat
    requires n <= |lines|
  {
    if n == 0 then 0 else Rules(lines, n - 1) + if lines[n - 1].Rule? then 1 else 0
  }

  /** The first listing, rule or end of file at or after j: where the licence run starting at j ends. */
  function NextStop(lines: seq<Line>, j: nat): (b: nat)
    requires j <= |lines|
    ensures j <= b <= |lines|
    ensures b < |lines| ==> Stops(lines[b])
    ensures forall k :: j <= k < b ==> !Stops(lines[k])
    decreases |lines| - j
  {
    if j == |lines| || Stops(lines[j]) then j else NextStop(lines, j + 1)
  }

  function Elems(s: seq<string>): set<string> { set x | x in s }

  /** The vendor texts cited by the prose of lines a..b. */
  function Cited(lines: seq<Line>, a: nat, b: nat): set<string>
    requires a <= b <= |lines|
    decreases b - a
  {
    if a == b then {}
    else Cited(lines, a, b - 1) + if lines[b - 1].Prose? then Elems(lines[b - 1].tokens) else {}
  }

  /** The worded declarations of lines a..b: licence lines that cite no text themselves. */
  function Worded(lines: seq<Line>, a: nat, b: nat): seq<string>
    requires a <= b <= |lines|
    decreases b - a
  {
    if a == b then []
    else
      var l := lines[b - 1];
      Worded(lines, a, b - 1) +
      if l.Prose? && l.tokens == [] && l.words.Some? then [l.words.value] else []
  }

  function Declared(words: seq<string>): set<Item> {
    set w, x | w in words && x in WordItems(w) :: x
  }

  function Unknown(words: seq<string>): seq<string> {
    if words == [] then []
    else Unknown(words[..|words| - 1]) +
         if Classify(words[|words| - 1]).None? then [words[|words| - 1]] else []
  }

  function Texts(names: set<string>): set<Item> { set n | n in names :: Text(n) }

  /** What a run says: the vendor texts it cites, or, when it cites none, its recognised declarations. */
  function Yield(lines: seq<Line>, a: nat, b: nat): set<Item>
    requires a <= b <= |lines|
  {
    if Cited(lines, a, b) != {} then Texts(Cited(lines, a, b)) else Declared(Worded(lines, a, b))
  }

  /** The items of the first run from j on that yields any, before the next rule of dashes. */
  function FirstYield(lines: seq<Line>, j: nat): set<Item>
    requires j <= |lines|
    decreases |lines| - j
  {
    var b := NextStop(lines, j);
    var s := Yield(lines, j, b);
    if s != {} || b == |lines| || lines[b].Rule? then s else FirstYield(lines, b + 1)
  }

  /** Line i lists `path` in block k, and the run that governs it yields x. */
  ghost predicate Owed(lines: seq<Line>, i: nat, k: nat, path: string, x: Item) {
    i < |lines| && Lists(lines[i]) && Drivers(lines, i) == k + 1 && PathOf(lines[i]) == path &&
    x in FirstYield(lines, i + 1)
  }

  function FilesOf(lines: seq<Line>, n: nat, k: nat): seq<string>
    requires n <= |lines|
  {
    if n == 0 then []
    else FilesOf(lines, n - 1, k) +
         if lines[n - 1].File? && Drivers(lines, n - 1) == k + 1 then [lines[n - 1].path] else []
  }

  function LinksOf(lines: seq<Line>, n: nat, k: nat): seq<(string, string)>
    requires n <= |lines|
  {
    if n == 0 then []
    else LinksOf(lines, n - 1, k) +
         if lines[n - 1].Link? && Drivers(lines, n - 1) == k + 1
         then [(lines[n - 1].link, lines[n - 1].target)] else []
  }

  /** The lines of section k, rules of dashes left out. */
  function SectionOf(lines: seq<Line>, n: nat, k: nat): seq<Line>
    requires n <= |lines|
  {
    if n == 0 then []
    else SectionOf(lines, n - 1, k) +
         if !lines[n - 1].Rule? && Rules(lines, n - 1) == k then [lines[n - 1]] else []
  }

  /** The index of the k-th Driver: line. */
  function BlockStart(lines: seq<Line>, n: nat, k: nat): (i: nat)
    requires n <= |lines| && k < Drivers(lines, n)
    ensures i < n && lines[i].Driver? && Drivers(lines, i) == k
  {
    if lines[n - 1].Driver? && Drivers(lines, n - 1) == k then n - 1 else BlockStart(lines, n - 1, k)
  }

  function DriverAt(lines: seq<Line>, n: nat): string
    requires n <= |lines|
  {
    if n == 0 then "?" else if lines[n - 1].Driver? then lines[n - 1].driver else DriverAt(lines, n - 1)
  }

  function Named(driver: string, texts: seq<string>): seq<Problem> {
    seq(|texts|, i requires 0 <= i < |texts| => Unrecognised(driver, texts[i]))
  }

  /** The unrecognised declarations of run a..b, when it cites no vendor text. */
  function Complaint(lines: seq<Line>, a: nat, b: nat): seq<Problem>
    requires a <= b <= |lines|
  {
    if Cited(lines, a, b) != {} then [] else Named(DriverAt(lines, b), Unknown(Worded(lines, a, b)))
  }

  /** The complaints of the runs from j on. */
  function Complaints(lines: seq<Line>, j: nat): seq<Problem>
    requires j <= |lines|
    decreases |lines| - j
  {
    var b := NextStop(lines, j);
    Complaint(lines, j, b) + if b == |lines| then [] else Complaints(lines, b + 1)
  }

  /** The first line after the first Driver: line: nothing before it counts. */
  function Opening(lines: seq<Line>, n: nat): (i: nat)
    requires n <= |lines|
    ensures i <= n
  {
    if n == 0 then 0
    else if Drivers(lines, n - 1) > 0 then Opening(lines, n - 1)
    else n
  }

  // ---- Lemmas about the rule ----

  lemma {:induction false} NextStopSkips(lines: seq<Line>, j: nat, n: nat)
    requires j <= n <= |lines| && forall k :: j <= k < n ==> !Stops(lines[k])
    ensures NextStop(lines, j) == NextStop(lines, n)
    decreases n - j
  {
    if j < n { NextStopSkips(lines, j + 1, n); }
  }

  lemma {:induction false} DriversMonotone(lines: seq<Line>, m: nat, n: nat)
    requires m <= n <= |lines|
    ensures Drivers(lines, m) <= Drivers(lines, n)
    decreases n
  {
    if m < n { DriversMonotone(lines, m, n - 1); }
  }

  /** Run a..b governs what is listed just before j: it starts at j or after another listing, every earlier run from
      j yields nothing, and no rule of dashes lies between. */
  ghost predicate Governs(lines: seq<Line>, j: nat, a: nat, b: nat) {
    j <= a <= b <= |lines| && b == NextStop(lines, a) &&
    (a == j || Lists(lines[a - 1])) &&
    (forall k :: j <= k < b ==> !lines[k].Rule?) &&
    (forall c, d :: j <= c <= d < a && (c == j || Lists(lines[c - 1])) && d == NextStop(lines, c) ==>
      Yield(lines, c, d) == {})
  }

  /** Skipping an empty first run changes no governing run. */
  lemma {:induction false} GovernsLater(lines: seq<Line>, j: nat, a: nat, b: nat)
    requires j <= |lines|
    requires var e := NextStop(lines, j); e < |lines| && Lists(lines[e]) && Yield(lines, j, e) == {}
    ensures Governs(lines, NextStop(lines, j) + 1, a, b) ==> Governs(lines, j, a, b)
    ensures Governs(lines, j, a, b) && a != j ==> Governs(lines, NextStop(lines, j) + 1, a, b)
  {
    hide Yield;
    var e := NextStop(lines, j);
    if Governs(lines, e + 1, a, b) {
      forall c, d | j <= c <= d < a && (c == j || Lists(lines[c - 1])) && d == NextStop(lines, c)
        ensures Yield(lines, c, d) == {}
      {
        assert c == j || e + 1 <= c;
      }
    }
  }

  /** When the first run yields something, or a rule of dashes or the end of the file follows, no other run governs. */
  lemma {:induction false} OnlyFirstGoverns(lines: seq<Line>, j: nat, a: nat, b: nat)
    requires j <= |lines|
    requires var e := NextStop(lines, j); Yield(lines, j, e) != {} || e == |lines| || lines[e].Rule?
    ensures Governs(lines, j, j, NextStop(lines, j))
    ensures Governs(lines, j, a, b) ==> a == j && b == NextStop(lines, j)
  {
    hide Yield;
    var e := NextStop(lines, j);
    assert Governs(lines, j, a, b) && j < a ==> e < a;
  }

  /** FirstYield is the yield of the first run that has one, never looking past a rule of dashes. */
  lemma {:induction false} FirstYieldIsGoverning(lines: seq<Line>, j: nat, s: set<Item>)
    requires j <= |lines| && s != {}
    ensures FirstYield(lines, j) == s <==> exists a, b :: Governs(lines, j, a, b) && Yield(lines, a, b) == s
    decreases |lines| - j
  {
    hide Yield;
    var e := NextStop(lines, j);
    var y := Yield(lines, j, e);
    assert e < |lines| ==> lines[e].Rule? || Lists(lines[e]);
    if y != {} || e == |lines| || lines[e].Rule? {
      OnlyFirstGoverns(lines, j, j, e);
      if a, b :| Governs(lines, j, a, b) && Yield(lines, a, b) == s {
        OnlyFirstGoverns(lines, j, a, b);
      }
    } else {
      FirstYieldIsGoverning(lines, e + 1, s);
      if a, b :| Governs(lines, e + 1, a, b) && Yield(lines, a, b) == s {
        GovernsLater(lines, j, a, b);
      }
      if a, b :| Governs(lines, j, a, b) && Yield(lines, a, b) == s {
        GovernsLater(lines, j, a, b);
      }
    }
  }

  /** Nothing after a rule of dashes changes what is owed before it. */
  lemma {:induction false} RulesSeparate(lines: seq<Line>, tail: seq<Line>, r: nat, j: nat)
    requires j <= r < |lines| && lines[r].Rule?
    ensures FirstYield(lines[..r + 1] + tail, j) == FirstYield(lines, j)
    decreases r - j
  {
    var other := lines[..r + 1] + tail;
    SameStop(lines, other, r, j);
    var b := NextStop(lines, j);
    SameRun(lines, other, j, b);
    if b < r { RulesSeparate(lines, tail, r, b + 1); }
  }

  lemma {:induction false} SameStop(lines: seq<Line>, other: seq<Line>, r: nat, j: nat)
    requires j <= r < |lines| && r < |other| && lines[..r + 1] == other[..r + 1] && Stops(lines[r])
    ensures NextStop(lines, j) == NextStop(other, j) <= r
    decreases r - j
  {
    assert lines[j] == lines[..r + 1][j] == other[..r + 1][j] == other[j];
    if !Stops(lines[j]) { SameStop(lines, other, r, j + 1); }
  }

  lemma {:induction false} SameRun(lines: seq<Line>, other: seq<Line>, a: nat, b: nat)
    requires a <= b <= |lines| && b <= |other| && lines[..b] == other[..b]
    ensures Cited(lines, a, b) == Cited(other, a, b) && Worded(lines, a, b) == Worded(other, a, b)
    decreases b - a
  {
    if a < b {
      assert lines[..b - 1] == lines[..b][..b - 1] == other[..b - 1];
      assert lines[b - 1] == lines[..b][b - 1] == other[b - 1];
      SameRun(lines, other, a, b - 1);
    }
  }

  lemma {:induction false} NoWords(driver: string)
    ensures Unknown([]) == [] && Named(driver, []) == [] && Declared([]) == {}
  {
  }

  lemma {:induction false} DeclaredSnoc(words: seq<string>)
    requires words != []
    ensures Declared(words) == Declared(words[..|words| - 1]) + WordItems(words[|words| - 1])
  {
    var init, last := words[..|words| - 1], words[|words| - 1];
    assert words == init + [last];
  }

  lemma {:induction false} UnknownSnoc(driver: string, words: seq<string>)
    requires words != []
    ensures Named(driver, Unknown(words)) == Named(driver, Unknown(words[..|words| - 1])) +
      if Classify(words[|words| - 1]).None? then [Unrecognised(driver, words[|words| - 1])] else []
  {
  }

  // ---- What the reader's variables mean after n lines ----

  /** `after` is `before` with s added to each path the group lists, and nothing else changed. */
  ghost predicate Credited(before: seq<Entry>, group: seq<(nat, string)>, s: set<Item>, after: seq<Entry>) {
    |after| == |before| &&
    (forall k :: 0 <= k < |before| ==> after[k] == before[k].(items := after[k].items)) &&
    (forall k, p :: 0 <= k < |before| ==>
      ItemsOf(after[k], p) == ItemsOf(before[k], p) + if (k, p) in group then s else {})
  }

  lemma {:induction false} CreditOne(before: seq<Entry>, group: seq<(nat, string)>, s: set<Item>, mid: seq<Entry>,
      k: nat, f: string)
    requires Credited(before, group, s, mid) && k < |before|
    ensures Credited(before, group + [(k, f)], s,
                     mid[k := mid[k].(items := mid[k].items[f := ItemsOf(mid[k], f) + s])])
  {
    var after := mid[k := mid[k].(items := mid[k].items[f := ItemsOf(mid[k], f) + s])];
    forall j, p | 0 <= j < |before|
      ensures ItemsOf(after[j], p) == ItemsOf(before[j], p) + if (j, p) in group + [(k, f)] then s else {}
    {
      assert ItemsOf(after[j], p) == if (j, p) == (k, f) then ItemsOf(mid[j], p) + s else ItemsOf(mid[j], p);
    }
  }

  ghost predicate Listed(lines: seq<Line>, n: nat, entries: seq<Entry>)
    requires n <= |lines|
  {
    |entries| == Drivers(lines, n) &&
    forall k :: 0 <= k < |entries| ==>
      var e, b := entries[k], BlockStart(lines, n, k);
      e.driver == lines[b].driver && e.section == Rules(lines, b) &&
      e.files == FilesOf(lines, n, k) && e.links == LinksOf(lines, n, k)
  }

  /** The group lists the lines in `open`, all still waiting for what the current run or a later one yields. */
  ghost predicate Waiting(lines: seq<Line>, n: nat, group: seq<(nat, string)>, open: seq<nat>, runStart: nat)
    requires n <= |lines|
  {
    runStart <= n && |group| == |open| &&
    (forall k :: runStart <= k < n ==> !Stops(lines[k])) &&
    (Drivers(lines, n) == 0 ==> runStart == n && group == []) &&
    forall q :: 0 <= q < |open| ==>
      var i := open[q];
      i < n && Lists(lines[i]) && 0 < Drivers(lines, i) <= Drivers(lines, n) &&
      group[q] == (Drivers(lines, i) - 1, PathOf(lines[i])) &&
      FirstYield(lines, i + 1) == FirstYield(lines, runStart)
  }

  ghost predicate OwedBefore(lines: seq<Line>, n: nat, open: seq<nat>, k: nat, p: string, x: Item) {
    exists i: nat :: i < n && i !in open && Owed(lines, i, k, p, x)
  }

  /** Every listing before n that no longer waits has been given what it is owed, and nothing else has been given. */
  ghost predicate Settled(lines: seq<Line>, n: nat, entries: seq<Entry>, open: seq<nat>) {
    forall k: nat, p, x :: k < |entries| ==> (x in ItemsOf(entries[k], p) <==> OwedBefore(lines, n, open, k, p, x))
  }

  lemma {:induction false} SettleCredited(lines: seq<Line>, n: nat, before: seq<Entry>, group: seq<(nat, string)>,
      open: seq<nat>, runStart: nat, after: seq<Entry>)
    requires n <= |lines| && Waiting(lines, n, group, open, runStart)
    requires Settled(lines, n, before, open)
    requires Credited(before, group, FirstYield(lines, runStart), after)
    ensures Settled(lines, n, after, [])
  {
    var s := FirstYield(lines, runStart);
    forall k: nat, p, x | k < |after|
      ensures x in ItemsOf(after[k], p) <==> OwedBefore(lines, n, [], k, p, x)
    {
      assert x in ItemsOf(after[k], p) <==> x in ItemsOf(before[k], p) || ((k, p) in group && x in s);
      OwedWhileWaiting(lines, n, group, open, runStart, k, p, x);
    }
  }

  lemma {:induction false} OwedWhileWaiting(lines: seq<Line>, n: nat, group: seq<(nat, string)>, open: seq<nat>,
      runStart: nat, k: nat, p: string, x: Item)
    requires n <= |lines| && Waiting(lines, n, group, open, runStart)
    ensures OwedBefore(lines, n, [], k, p, x) <==>
      OwedBefore(lines, n, open, k, p, x) || ((k, p) in group && x in FirstYield(lines, runStart))
  {
    var s := FirstYield(lines, runStart);
    forall q | 0 <= q < |open|
      ensures open[q] < n && (Owed(lines, open[q], k, p, x) <==> group[q] == (k, p) && x in s)
    {
    }
    Share((i: nat) => i < n && Owed(lines, i, k, p, x), group, open, (k, p), x in s);
  }

  /** Of the indices that satisfy `owed`, those in `open` are the ones whose group member is `path`. */
  lemma {:induction false} Share(owed: nat -> bool, group: seq<(nat, string)>, open: seq<nat>, path: (nat, string),
      due: bool)
    requires |group| == |open|
    requires forall q :: 0 <= q < |open| ==> (owed(open[q]) <==> group[q] == path && due)
    ensures (exists i :: owed(i)) <==> (exists i :: owed(i) && i !in open) || (path in group && due)
  {
    if path in group && due {
      var q :| 0 <= q < |group| && group[q] == path;
      assert owed(open[q]);
    }
  }

  /** Listings that wait for a run which yields nothing are settled as they are. */
  lemma {:induction false} SettleEmpty(lines: seq<Line>, n: nat, entries: seq<Entry>, group: seq<(nat, string)>,
      open: seq<nat>, runStart: nat)
    requires n <= |lines| && Waiting(lines, n, group, open, runStart)
    requires Settled(lines, n, entries, open)
    requires FirstYield(lines, runStart) == {}
    ensures Settled(lines, n, entries, [])
  {
    forall k: nat, p, x | k < |entries| && OwedBefore(lines, n, [], k, p, x)
      ensures OwedBefore(lines, n, open, k, p, x)
    {
      var i: nat :| i < n && Owed(lines, i, k, p, x);
      assert i !in open;
    }
  }

  /** A line that lists nothing, and starts no block before n + 1, owes nothing. */
  lemma {:induction false} SettleIdle(lines: seq<Line>, n: nat, entries: seq<Entry>, open: seq<nat>)
    requires n < |lines| && Settled(lines, n, entries, open)
    requires Lists(lines[n]) ==> n in open || Drivers(lines, n) == 0
    ensures Settled(lines, n + 1, entries, open)
  {
    forall k: nat, p, x | k < |entries|
      ensures OwedBefore(lines, n, open, k, p, x) <==> OwedBefore(lines, n + 1, open, k, p, x)
    {
    }
  }

  lemma {:induction false} SettleOpen(lines: seq<Line>, n: nat, entries: seq<Entry>, open: seq<nat>)
    requires n < |lines| && Settled(lines, n, entries, open)
    ensures Settled(lines, n + 1, entries, open + [n])
  {
    forall k: nat, p, x | k < |entries|
      ensures OwedBefore(lines, n, open, k, p, x) <==> OwedBefore(lines, n + 1, open + [n], k, p, x)
    {
      forall i: nat | i < n && i !in open && Owed(lines, i, k, p, x) ensures i !in open + [n] { }
    }
  }

  lemma {:induction false} SettleSame(lines: seq<Line>, n: nat, before: seq<Entry>, after: seq<Entry>, open: seq<nat>)
    requires Settled(lines, n, before, open) && |before| == |after|
    requires forall k :: 0 <= k < |before| ==> after[k].items == before[k].items
    ensures Settled(lines, n, after, open)
  {
    forall k: nat, p | k < |after| ensures ItemsOf(after[k], p) == ItemsOf(before[k], p) { }
  }

  /** A new block starts with nothing owed to it. */
  lemma {:induction false} SettleBlock(lines: seq<Line>, n: nat, entries: seq<Entry>, open: seq<nat>, e: Entry)
    requires n < |lines| && lines[n].Driver? && Settled(lines, n, entries, open)
    requires |entries| == Drivers(lines, n) && e.items == map[]
    ensures Settled(lines, n + 1, entries + [e], open)
  {
    SettleIdle(lines, n, entries, open);
    forall i: nat | i < n + 1 ensures Drivers(lines, i) <= |entries| {
      DriversMonotone(lines, i, n);
    }
    assert forall i: nat, p, x :: i < n + 1 ==> !Owed(lines, i, |entries|, p, x);
  }

  /** What waiting listings get when the run from runStart ends at line n. */
  lemma {:induction false} YieldAtStop(lines: seq<Line>, n: nat, runStart: nat)
    requires runStart <= n <= |lines| && (n < |lines| ==> Stops(lines[n]))
    requires forall k :: runStart <= k < n ==> !Stops(lines[k])
    ensures FirstYield(lines, runStart) ==
      var s := Yield(lines, runStart, n);
      if s != {} || n == |lines| || lines[n].Rule? then s else FirstYield(lines, n + 1)
  {
    NextStopSkips(lines, runStart, n);
  }

  lemma {:induction false} ListedCredited(lines: seq<Line>, n: nat, before: seq<Entry>, group: seq<(nat, string)>,
      s: set<Item>, after: seq<Entry>)
    requires n <= |lines| && Listed(lines, n, before) && Credited(before, group, s, after)
    ensures Listed(lines, n, after)
  {
    forall k | 0 <= k < |after|
      ensures after[k].driver == before[k].driver && after[k].section == before[k].section &&
              after[k].files == before[k].files && after[k].links == before[k].links
    {
      assert after[k] == before[k].(items := after[k].items);
    }
  }

  /** The group, closed because a run ended: what it was, and what closing left. */
  ghost predicate Closed(lines: seq<Line>, n: nat, runStart: nat, before: seq<Entry>, group: seq<(nat, string)>,
      open: seq<nat>, after: seq<Entry>, group': seq<(nat, string)>, open': seq<nat>)
    requires runStart <= n <= |lines|
  {
    var s := Yield(lines, runStart, n);
    if s == {} then after == before && group' == group && open' == open
    else group' == [] && open' == [] && Credited(before, group, s, after)
  }

  /** Closing the group at a rule of dashes or at the end of the file settles every listing. */
  lemma {:induction false} AtBarrier(lines: seq<Line>, n: nat, runStart: nat, before: seq<Entry>,
      group: seq<(nat, string)>, open: seq<nat>, after: seq<Entry>, group': seq<(nat, string)>, open': seq<nat>)
    requires n <= |lines| && (n == |lines| || lines[n].Rule?)
    requires Listed(lines, n, before) && Waiting(lines, n, group, open, runStart) && Settled(lines, n, before, open)
    requires Closed(lines, n, runStart, before, group, open, after, group', open')
    ensures Listed(lines, n, after) && Settled(lines, n, after, [])
  {
    YieldAtStop(lines, n, runStart);
    if Yield(lines, runStart, n) != {} {
      SettleCredited(lines, n, before, group, open, runStart, after);
      ListedCredited(lines, n, before, group, Yield(lines, runStart, n), after);
    } else {
      SettleEmpty(lines, n, before, group, open, runStart);
    }
  }

  lemma {:induction false} WaitingMore(lines: seq<Line>, n: nat, group: seq<(nat, string)>, open: seq<nat>,
      runStart: nat)
    requires n < |lines| && Lists(lines[n]) && Drivers(lines, n) > 0
    requires Waiting(lines, n, group, open, runStart)
    requires group == [] || FirstYield(lines, runStart) == FirstYield(lines, n + 1)
    ensures Waiting(lines, n + 1, group + [(Drivers(lines, n) - 1, PathOf(lines[n]))], open + [n], n + 1)
  {
  }

  /** Closing the group at a listing leaves only listings that the next run may still license. */
  lemma {:induction false} AtListing(lines: seq<Line>, n: nat, runStart: nat, before: seq<Entry>,
      group: seq<(nat, string)>, open: seq<nat>, after: seq<Entry>, group': seq<(nat, string)>, open': seq<nat>)
    requires n < |lines| && Lists(lines[n]) && Drivers(lines, n) > 0
    requires Listed(lines, n, before) && Waiting(lines, n, group, open, runStart) && Settled(lines, n, before, open)
    requires Closed(lines, n, runStart, before, group, open, after, group', open')
    ensures Listed(lines, n, after) && Settled(lines, n + 1, after, open' + [n])
    ensures Waiting(lines, n + 1, group' + [(Drivers(lines, n) - 1, PathOf(lines[n]))], open' + [n], n + 1)
  {
    YieldAtStop(lines, n, runStart);
    if Yield(lines, runStart, n) != {} {
      SettleCredited(lines, n, before, group, open, runStart, after);
      ListedCredited(lines, n, before, group, Yield(lines, runStart, n), after);
    }
    WaitingMore(lines, n, group', open', runStart);
    SettleOpen(lines, n, after, open');
  }

  function WithListing(e: Entry, l: Line): Entry
    requires Lists(l)
  {
    if l.File? then e.(files := e.files + [l.path]) else e.(links := e.links + [(l.link, l.target)])
  }

  /** The last block's list grows by the line that lists in it. */
  lemma {:induction false} ListedMore(lines: seq<Line>, n: nat, entries: seq<Entry>, entries': seq<Entry>)
    requires n < |lines| && Lists(lines[n]) && entries != [] && Listed(lines, n, entries)
    requires entries' == entries[|entries| - 1 := WithListing(entries[|entries| - 1], lines[n])]
    ensures Listed(lines, n + 1, entries')
  {
  }

  ghost predicate Complained(lines: seq<Line>, n: nat, runStart: nat, problems: seq<Problem>) {
    runStart <= n <= |lines| &&
    if Drivers(lines, n) == 0 then problems == []
    else problems + Complaints(lines, runStart) == Complaints(lines, Opening(lines, n))
  }

  /** The run that ends at a stop is complained about as its words were taken. */
  lemma {:induction false} ComplainedAtStop(lines: seq<Line>, n: nat, runStart: nat, before: seq<Problem>,
      after: seq<Problem>)
    requires n < |lines| && Stops(lines[n]) && Complained(lines, n, runStart, before)
    requires forall k :: runStart <= k < n ==> !Stops(lines[k])
    requires Drivers(lines, n) == 0 ==> after == before
    requires Drivers(lines, n) > 0 ==> after == before + Complaint(lines, runStart, n)
    ensures Complained(lines, n + 1, n + 1, after)
  {
    if Drivers(lines, n) > 0 {
      ComplaintsStep(lines, n, runStart);
      Associate(before, Complaint(lines, runStart, n), Complaints(lines, n + 1));
    }
  }

  lemma {:induction false} ComplainedIdle(lines: seq<Line>, n: nat, runStart: nat, problems: seq<Problem>)
    requires n < |lines| && Complained(lines, n, runStart, problems)
    ensures !lines[n].Driver? && Drivers(lines, n) == 0 ==> Complained(lines, n + 1, n + 1, problems)
    ensures Drivers(lines, n) > 0 ==> Complained(lines, n + 1, runStart, problems)
    ensures lines[n].Driver? && Drivers(lines, n) == 0 ==> Complained(lines, n + 1, n + 1, problems)
  {
  }

  lemma {:induction false} ComplaintsStep(lines: seq<Line>, n: nat, runStart: nat)
    requires runStart <= n < |lines| && Stops(lines[n])
    requires forall k :: runStart <= k < n ==> !Stops(lines[k])
    ensures Complaints(lines, runStart) == Complaint(lines, runStart, n) + Complaints(lines, n + 1)
  {
    hide Complaint;
    NextStopSkips(lines, runStart, n);
  }

  lemma {:induction false} Associate<T>(a: seq<T>, b: seq<T>, c: seq<T>)
    ensures (a + b) + c == a + (b + c)
  {
  }

  lemma {:induction false} ComplainedAtEnd(lines: seq<Line>, runStart: nat, before: seq<Problem>, after: seq<Problem>)
    requires Complained(lines, |lines|, runStart, before)
    requires forall k :: runStart <= k < |lines| ==> !Stops(lines[k])
    requires Drivers(lines, |lines|) == 0 ==> after == before
    requires Drivers(lines, |lines|) > 0 ==> after == before + Complaint(lines, runStart, |lines|)
    ensures after == Complaints(lines, Opening(lines, |lines|))
  {
    NextStopSkips(lines, runStart, |lines|);
    if Drivers(lines, |lines|) == 0 { OpeningLate(lines, |lines|); }
  }

  lemma {:induction false} OpeningLate(lines: seq<Line>, n: nat)
    requires n <= |lines| && Drivers(lines, n) == 0
    ensures Opening(lines, n) == n
  {
  }

  lemma {:induction false} DriverAtLast(lines: seq<Line>, n: nat)
    requires n <= |lines| && Drivers(lines, n) > 0
    ensures DriverAt(lines, n) == lines[BlockStart(lines, n, Drivers(lines, n) - 1)].driver
  {
    if !lines[n - 1].Driver? { DriverAtLast(lines, n - 1); }
  }

  lemma {:induction false} LastListed(lines: seq<Line>, n: nat, entries: seq<Entry>)
    requires n <= |lines| && Listed(lines, n, entries)
    ensures |entries| == Drivers(lines, n)
    ensures entries != [] ==> entries[|entries| - 1].driver == DriverAt(lines, n)
  {
    if entries != [] { DriverAtLast(lines, n); }
  }

  /** A block opened at line n has listed nothing yet; the earlier blocks are unchanged. */
  lemma {:induction false} ListedBlock(lines: seq<Line>, n: nat, entries: seq<Entry>, e: Entry)
    requires n < |lines| && lines[n].Driver? && Listed(lines, n, entries)
    requires e == Entry(lines[n].driver, [], [], Rules(lines, n), map[])
    ensures Listed(lines, n + 1, entries + [e])
  {
    NothingListed(lines, n, |entries|);
  }

  lemma {:induction false} NothingListed(lines: seq<Line>, n: nat, k: nat)
    requires n <= |lines| && Drivers(lines, n) <= k
    ensures FilesOf(lines, n, k) == [] && LinksOf(lines, n, k) == []
  {
    if n > 0 { NothingListed(lines, n - 1, k); }
  }

  lemma {:induction false} SectionEmpty(lines: seq<Line>, n: nat, k: nat)
    requires n <= |lines| && Rules(lines, n) <= k
    requires Rules(lines, n) == k ==> n > 0 && lines[n - 1].Rule?
    ensures SectionOf(lines, n, k) == []
  {
    if n > 0 { SectionEmpty(lines, n - 1, k); }
  }

  ghost predicate Sectioned(lines: seq<Line>, n: nat, sections: seq<seq<Line>>) {
    n <= |lines| && |sections| == Rules(lines, n) + 1 &&
    forall k :: 0 <= k < |sections| ==> sections[k] == SectionOf(lines, n, k)
  }

  lemma {:induction false} SectionsGrow(lines: seq<Line>, n: nat, sections: seq<seq<Line>>)
    requires n < |lines| && Sectioned(lines, n, sections)
    ensures lines[n].Rule? ==> Sectioned(lines, n + 1, sections + [[]])
    ensures !lines[n].Rule? ==>
      var k := |sections| - 1;
      Sectioned(lines, n + 1, sections[k := sections[k] + [lines[n]]])
  {
    if lines[n].Rule? { SectionEmpty(lines, n + 1, |sections|); }
  }

  /** Everything a block's path is owed by the lines that list it there. */
  ghost function Attributed(lines: seq<Line>, k: nat, path: string): set<Item> {
    set i: nat, x | i < |lines| && x in FirstYield(lines, i + 1) && Owed(lines, i, k, path, x) :: x
  }

  lemma {:induction false} AllSettled(lines: seq<Line>, entries: seq<Entry>)
    requires Settled(lines, |lines|, entries, [])
    ensures forall k: nat, p :: k < |entries| ==> ItemsOf(entries[k], p) == Attributed(lines, k, p)
  {
    forall k: nat, p, x | k < |entries|
      ensures x in ItemsOf(entries[k], p) <==> x in Attributed(lines, k, p)
    {
      if OwedBefore(lines, |lines|, [], k, p, x) {
        var i: nat :| i < |lines| && i !in [] && Owed(lines, i, k, p, x);
      }
      if x in Attributed(lines, k, p) {
        var i: nat :| i < |lines| && Owed(lines, i, k, p, x);
        assert i !in [];
      }
    }
  }

  // ---- Lines that list nothing ----

  lemma {:induction false} ListedIdle(lines: seq<Line>, n: nat, entries: seq<Entry>)
    requires n < |lines| && !lines[n].Driver? && Listed(lines, n, entries)
    requires Lists(lines[n]) ==> Drivers(lines, n) == 0
    ensures Listed(lines, n + 1, entries)
  {
    forall k | 0 <= k < |entries|
      ensures BlockStart(lines, n + 1, k) == BlockStart(lines, n, k)
      ensures FilesOf(lines, n + 1, k) == FilesOf(lines, n, k) && LinksOf(lines, n + 1, k) == LinksOf(lines, n, k)
    {
    }
  }

  lemma {:induction false} WaitingIdle(lines: seq<Line>, n: nat, group: seq<(nat, string)>, open: seq<nat>,
      runStart: nat)
    requires n < |lines| && !Stops(lines[n]) && Drivers(lines, n) > 0 && Waiting(lines, n, group, open, runStart)
    ensures Waiting(lines, n + 1, group, open, runStart)
  {
  }

  /** Nothing is pending before the first block or right after a stop. */
  lemma {:induction false} NothingPending(lines: seq<Line>, n: nat)
    requires n <= |lines|
    ensures Waiting(lines, n, [], [], n) && Cited(lines, n, n) == {} && Texts({}) == {} && Worded(lines, n, n) == []
  {
  }

  lemma {:induction false} TextsEmpty(names: set<string>)
    ensures Texts(names) == {} <==> names == {}
  {
    forall n | n in names ensures Text(n) in Texts(names) { }
  }

  /** Everything but the pending licence, after n lines. */
  ghost predicate State(lines: seq<Line>, n: nat, entries: seq<Entry>, group: seq<(nat, string)>, open: seq<nat>,
      runStart: nat, problems: seq<Problem>)
  {
    n <= |lines| && Listed(lines, n, entries) && Waiting(lines, n, group, open, runStart) &&
    Settled(lines, n, entries, open) && Complained(lines, n, runStart, problems)
  }

  lemma {:induction false} NothingRead(lines: seq<Line>)
    ensures State(lines, 0, [], [], [], 0, [])
    ensures Rules(lines, 0) == 0 && SectionOf(lines, 0, 0) == []
  {
  }

  lemma {:induction false} AfterRule(lines: seq<Line>, n: nat, before: seq<Entry>, group: seq<(nat, string)>,
      open: seq<nat>, runStart: nat, problems: seq<Problem>, after: seq<Entry>, group': seq<(nat, string)>,
      open': seq<nat>, problems': seq<Problem>)
    requires n < |lines| && lines[n].Rule? && State(lines, n, before, group, open, runStart, problems)
    requires Closed(lines, n, runStart, before, group, open, after, group', open')
    requires if Drivers(lines, n) == 0 then problems' == problems
             else problems' == problems + Complaint(lines, runStart, n)
    ensures State(lines, n + 1, after, [], [], n + 1, problems')
  {
    hide FirstYield, Yield, Complaint, Complaints, Settled, NextStop, FilesOf, LinksOf;
    AtBarrier(lines, n, runStart, before, group, open, after, group', open');
    ComplainedAtStop(lines, n, runStart, problems, problems');
    ListedIdle(lines, n, after);
    SettleIdle(lines, n, after, []);
    NothingPending(lines, n + 1);
  }

  lemma {:induction false} AfterListing(lines: seq<Line>, n: nat, before: seq<Entry>, group: seq<(nat, string)>,
      open: seq<nat>, runStart: nat, problems: seq<Problem>, mid: seq<Entry>, group': seq<(nat, string)>,
      open': seq<nat>, problems': seq<Problem>, after: seq<Entry>)
    requires n < |lines| && Lists(lines[n]) && before != []
    requires State(lines, n, before, group, open, runStart, problems)
    requires Closed(lines, n, runStart, before, group, open, mid, group', open')
    requires problems' == problems + Complaint(lines, runStart, n)
    requires mid != [] && after == mid[|mid| - 1 := WithListing(mid[|mid| - 1], lines[n])]
    ensures State(lines, n + 1, after, group' + [(|mid| - 1, PathOf(lines[n]))], open' + [n], n + 1, problems')
  {
    hide FirstYield, Yield, Complaint, Complaints, Settled, NextStop, FilesOf, LinksOf;
    AtListing(lines, n, runStart, before, group, open, mid, group', open');
    ComplainedAtStop(lines, n, runStart, problems, problems');
    ListedMore(lines, n, mid, after);
    SettleSame(lines, n + 1, mid, after, open' + [n]);
  }

  lemma {:induction false} AfterIdle(lines: seq<Line>, n: nat, entries: seq<Entry>, group: seq<(nat, string)>,
      open: seq<nat>, runStart: nat, problems: seq<Problem>)
    requires n < |lines| && !lines[n].Rule? && !lines[n].Driver?
    requires State(lines, n, entries, group, open, runStart, problems)
    requires Lists(lines[n]) ==> entries == []
    ensures State(lines, n + 1, entries, group, open, if entries == [] then n + 1 else runStart, problems)
  {
    ListedIdle(lines, n, entries);
    SettleIdle(lines, n, entries, open);
    ComplainedIdle(lines, n, runStart, problems);
    if entries == [] {
      NothingPending(lines, n + 1);
    } else {
      WaitingIdle(lines, n, group, open, runStart);
    }
  }

  lemma {:induction false} AfterDriver(lines: seq<Line>, n: nat, entries: seq<Entry>, group: seq<(nat, string)>,
      open: seq<nat>, runStart: nat, problems: seq<Problem>, e: Entry)
    requires n < |lines| && lines[n].Driver? && State(lines, n, entries, group, open, runStart, problems)
    requires e == Entry(lines[n].driver, [], [], Rules(lines, n), map[])
    ensures State(lines, n + 1, entries + [e], group, open, if entries == [] then n + 1 else runStart, problems)
  {
    hide FirstYield, Yield, Complaint, Complaints, Settled, NextStop, FilesOf, LinksOf;
    SettleBlock(lines, n, entries, open, e);
    ListedBlock(lines, n, entries, e);
    ComplainedIdle(lines, n, runStart, problems);
    if entries == [] {
      NothingPending(lines, n + 1);
    } else {
      WaitingIdle(lines, n, group, open, runStart);
    }
  }

  /** What the file has said once the last run is closed. */
  lemma {:induction false} AfterAll(lines: seq<Line>, before: seq<Entry>, group: seq<(nat, string)>, open: seq<nat>,
      runStart: nat, problems: seq<Problem>, after: seq<Entry>, group': seq<(nat, string)>, open': seq<nat>,
      problems': seq<Problem>)
    requires State(lines, |lines|, before, group, open, runStart, problems)
    requires Closed(lines, |lines|, runStart, before, group, open, after, group', open')
    requires if Drivers(lines, |lines|) == 0 then problems' == problems
             else problems' == problems + Complaint(lines, runStart, |lines|)
    ensures Listed(lines, |lines|, after)
    ensures forall k: nat, p :: k < |after| ==> ItemsOf(after[k], p) == Attributed(lines, k, p)
    ensures problems' == Complaints(lines, Opening(lines, |lines|))
  {
    hide FirstYield, Yield, Complaint, Complaints, Settled, NextStop, FilesOf, LinksOf;
    AtBarrier(lines, |lines|, runStart, before, group, open, after, group', open');
    ComplainedAtEnd(lines, runStart, problems, problems');
    AllSettled(lines, after);
  }

  predicate ListedIn(e: Entry, path: string) {
    path in e.files || Names(e.links, path)
  }

  /** A block licenses only paths it lists itself. */
  ghost predicate LicensesOwn(entries: seq<Entry>) {
    forall k, p :: 0 <= k < |entries| && ItemsOf(entries[k], p) != {} ==> ListedIn(entries[k], p)
  }

  predicate Names(links: seq<(string, string)>, path: string) {
    exists i :: 0 <= i < |links| && links[i].0 == path
  }

  lemma {:induction false} FileStays(lines: seq<Line>, n: nat, i: nat)
    requires i < n <= |lines| && lines[i].File? && Drivers(lines, i) > 0
    ensures lines[i].path in FilesOf(lines, n, Drivers(lines, i) - 1)
    decreases n
  {
    if i < n - 1 { FileStays(lines, n - 1, i); }
  }

  lemma {:induction false} LinkStays(lines: seq<Line>, n: nat, i: nat)
    requires i < n <= |lines| && lines[i].Link? && Drivers(lines, i) > 0
    ensures (lines[i].link, lines[i].target) in LinksOf(lines, n, Drivers(lines, i) - 1)
    decreases n
  {
    if i < n - 1 { LinkStays(lines, n - 1, i); }
  }

  lemma {:induction false} AttributedIsListed(lines: seq<Line>, k: nat, p: string, x: Item)
    requires x in Attributed(lines, k, p)
    ensures p in FilesOf(lines, |lines|, k) || Names(LinksOf(lines, |lines|, k), p)
  {
    var i: nat :| i < |lines| && Owed(lines, i, k, p, x);
    assert Owed(lines, i, k, p, x);
    if lines[i].File? {
      FileStays(lines, |lines|, i);
    } else {
      LinkStays(lines, |lines|, i);
      var links := LinksOf(lines, |lines|, k);
      var j :| 0 <= j < |links| && links[j] == (lines[i].link, lines[i].target);
    }
  }

  lemma {:induction false} ReadLicensesOwn(lines: seq<Line>, entries: seq<Entry>)
    requires Listed(lines, |lines|, entries)
    requires forall k: nat, p :: k < |entries| ==> ItemsOf(entries[k], p) == Attributed(lines, k, p)
    ensures LicensesOwn(entries)
  {
    hide Attributed, FilesOf, LinksOf;
    forall k: nat, p | k < |entries| && ItemsOf(entries[k], p) != {} ensures ListedIn(entries[k], p) {
      var x :| x in Attributed(lines, k, p);
      AttributedIsListed(lines, k, p, x);
    }
  }

  // ---- The reader ----

  /** parse_whence and its two local functions, over the variables they share. A block is named by its index in
      `entries`; `cur` is the last entry. */
  class Reader {
    var entries: seq<Entry>
    var sections: seq<seq<Line>>
    var problems: seq<Problem>
    var group: seq<(nat, string)>  // paths waiting for the next run
    var items: set<Item>           // pending["items"]
    var tokens: bool               // pending["tokens"]
    var words: seq<string>         // pending["words"]
    ghost var open: seq<nat>       // the lines the group lists
    ghost var runStart: nat        // the line after the last stop

    constructor ()
      ensures entries == [] && sections == [[]] && problems == [] && group == [] && open == []
      ensures runStart == 0 && items == {} && !tokens && words == []
    {
      entries, sections, problems, group, open, runStart := [], [[]], [], [], [], 0;
      items, tokens, words := {}, false, [];
    }

    /** What closing the group now would yield. */
    function Pending(): set<Item>
      reads this
    {
      if tokens then items else items + Declared(words)
    }

    function Where(): string
      reads this
    {
      if entries == [] then "?" else entries[|entries| - 1].driver
    }

    /** The worded declarations of a group that cites no vendor text. */
    method TakeWords()
      modifies `problems, `items
      ensures problems == old(problems) + Named(Where(), Unknown(words))
      ensures items == old(items) + Declared(words)
    {
      hide Classify, Named, Unknown, Declared;
      NoWords(Where());
      var i := 0;
      while i < |words|
        invariant 0 <= i <= |words|
        invariant problems == old(problems) + Named(Where(), Unknown(words[..i]))
        invariant items == old(items) + Declared(words[..i])
      {
        var text := words[i];
        assert words[..i + 1][..i] == words[..i];
        DeclaredSnoc(words[..i + 1]);
        UnknownSnoc(Where(), words[..i + 1]);
        var got := Classify(text);
        if got == None {
          problems := problems + [Unrecognised(Where(), text)];
        } else {
          items := items + {Term(got.value.spdx), Text(got.value.text)};
        }
        i := i + 1;
      }
      assert words[..|words|] == words;
    }

    /** Gives the pending items to every path of the group and empties it. */
    method CreditGroup()
      requires forall q :: 0 <= q < |group| ==> group[q].0 < |entries|
      modifies `entries, `group, `open
      ensures group == [] && open == [] && Credited(old(entries), old(group), items, entries)
    {
      var i := 0;
      while i < |group|
        invariant 0 <= i <= |group| && group == old(group)
        invariant Credited(old(entries), group[..i], items, entries)
      {
        var (k, f) := group[i];
        CreditOne(old(entries), group[..i], items, entries, k, f);
        entries := entries[k := entries[k].(items := entries[k].items[f := ItemsOf(entries[k], f) + items])];
        assert group[..i + 1] == group[..i] + [(k, f)];
        i := i + 1;
      }
      assert group[..|group|] == group;
      group, open := [], [];
    }

    method CloseGroup()
      requires forall q :: 0 <= q < |group| ==> group[q].0 < |entries|
      requires |group| == |open|
      modifies `entries, `problems, `group, `items, `tokens, `words, `open
      ensures problems == old(problems) + if old(tokens) then [] else Named(old(Where()), Unknown(old(words)))
      ensures items == {} && !tokens && words == []
      ensures old(Pending()) == {} ==> entries == old(entries) && group == old(group) && open == old(open)
      ensures old(Pending()) != {} ==>
        group == [] && open == [] && Credited(old(entries), old(group), old(Pending()), entries)
    {
      hide Named, Unknown, Declared;
      NoWords(Where());
      if words != [] && !tokens {
        TakeWords();
      }
      assert items == old(Pending());
      if group != [] && items != {} {
        CreditGroup();
      }
      items, tokens, words := {}, false, [];
    }

    method NewGroupIfLicensed()
      requires forall q :: 0 <= q < |group| ==> group[q].0 < |entries|
      requires |group| == |open| && (tokens ==> items != {})
      modifies `entries, `problems, `group, `items, `tokens, `words, `open
      ensures problems == old(problems) + if old(tokens) then [] else Named(old(Where()), Unknown(old(words)))
      ensures items == {} && !tokens && words == []
      ensures old(Pending()) == {} ==> entries == old(entries) && group == old(group) && open == old(open)
      ensures old(Pending()) != {} ==>
        group == [] && open == [] && Credited(old(entries), old(group), old(Pending()), entries)
    {
      if items != {} || words != [] {
        CloseGroup();
      }
    }

    ghost predicate Valid(lines: seq<Line>, n: nat)
      reads this
    {
      State(lines, n, entries, group, open, runStart, problems) && Reads(lines, n)
    }

    /** The pending licence is what the run from runStart has said so far. */
    ghost predicate Reads(lines: seq<Line>, n: nat)
      reads this
    {
      runStart <= n <= |lines| &&
      tokens == (Cited(lines, runStart, n) != {}) &&
      items == Texts(Cited(lines, runStart, n)) &&
      words == Worded(lines, runStart, n)
    }

    /** What the closing methods may assume, and what closing then takes the pending licence to be. */
    lemma {:induction false} BeforeClosing(lines: seq<Line>, n: nat)
      requires Valid(lines, n)
      ensures forall q :: 0 <= q < |group| ==> group[q].0 < |entries|
      ensures |group| == |open| && (tokens ==> items != {})
      ensures Pending() == Yield(lines, runStart, n)
      ensures entries != [] ==>
        Complaint(lines, runStart, n) == if tokens then [] else Named(Where(), Unknown(words))
      ensures |entries| == Drivers(lines, n)
      ensures entries == [] ==> words == [] && runStart == n
    {
      hide FirstYield, Settled, Complained, Listed, Named, Unknown, Declared;
      TextsEmpty(Cited(lines, runStart, n));
      LastListed(lines, n, entries);
      if entries == [] { NothingPending(lines, n); }
    }

    method TakeRule(ghost lines: seq<Line>, ghost n: nat)
      requires Valid(lines, n) && n < |lines| && lines[n].Rule?
      modifies `entries, `problems, `group, `items, `tokens, `words, `open, `runStart
      ensures Valid(lines, n + 1)
    {
      hide State, FirstYield, Complaint, Complaints, Yield, Named, Unknown, Declared, SectionOf;
      ghost var entries0, group0, open0, problems0 := entries, group, open, problems;
      BeforeClosing(lines, n);
      NoWords(Where());
      CloseGroup();
      AfterRule(lines, n, entries0, group0, open0, runStart, problems0, entries, group, open, problems);
      group, open := [], [];  // what waits is owed nothing
      runStart := n + 1;
    }

    method TakeDriver(ghost lines: seq<Line>, ghost n: nat, driver: string)
      requires Valid(lines, n) && n < |lines| && lines[n] == Driver(driver)
      requires |sections| == Rules(lines, n) + 1
      modifies `entries, `runStart
      ensures Valid(lines, n + 1)
    {
      hide State, FirstYield, Complaint, Complaints, Yield, Named, Unknown, Declared, SectionOf;
      var e := Entry(driver, [], [], |sections| - 1, map[]);
      BeforeClosing(lines, n);
      AfterDriver(lines, n, entries, group, open, runStart, problems, e);
      if entries == [] { runStart := n + 1; }
      entries := entries + [e];
    }

    method TakeProse(ghost lines: seq<Line>, ghost n: nat, cited: seq<string>, declared: Option<string>)
      requires Valid(lines, n) && n < |lines| && lines[n] == Prose(cited, declared)
      modifies `items, `tokens, `words, `runStart
      ensures Valid(lines, n + 1)
    {
      hide State, FirstYield, Complaint, Complaints, Yield, Named, Unknown, Declared, SectionOf;
      BeforeClosing(lines, n);
      AfterIdle(lines, n, entries, group, open, runStart, problems);
      if entries == [] {
        runStart := n + 1;
        return;
      }
      ScanTokens(cited, Cited(lines, runStart, n));
      if declared.Some? && cited == [] {
        words := words + [declared.value];
      }
    }

    /** The vendor texts a prose line cites. */
    method ScanTokens(cited: seq<string>, ghost before: set<string>)
      requires items == Texts(before) && tokens == (before != {})
      modifies `items, `tokens
      ensures items == Texts(before + Elems(cited)) && tokens == (before + Elems(cited) != {})
    {
      var i := 0;
      while i < |cited|
        invariant 0 <= i <= |cited|
        invariant items == Texts(before + Elems(cited[..i]))
        invariant tokens == (before + Elems(cited[..i]) != {})
      {
        assert cited[i] in Elems(cited[..i + 1]);
        assert Elems(cited[..i + 1]) == Elems(cited[..i]) + {cited[i]};
        items, tokens := items + {Text(cited[i])}, true;
        i := i + 1;
      }
      assert cited[..|cited|] == cited;
    }

    method TakeListing(ghost lines: seq<Line>, ghost n: nat, l: Line)
      requires Valid(lines, n) && n < |lines| && lines[n] == l && Lists(l)
      modifies `entries, `problems, `group, `items, `tokens, `words, `open, `runStart
      ensures Valid(lines, n + 1)
    {
      hide State, FirstYield, Complaint, Complaints, Yield, Named, Unknown, Declared, SectionOf;
      if entries == [] {
        BeforeClosing(lines, n);
        AfterIdle(lines, n, entries, group, open, runStart, problems);
        runStart := n + 1;
        return;
      }
      ghost var entries0, group0, open0, problems0 := entries, group, open, problems;
      BeforeClosing(lines, n);
      NewGroupIfLicensed();
      ghost var mid, group1, open1 := entries, group, open;
      var k := |entries| - 1;
      entries := entries[k := WithListing(entries[k], l)];
      AfterListing(lines, n, entries0, group0, open0, runStart, problems0, mid, group1, open1, problems, entries);
      group, open := group + [(k, PathOf(l))], open + [n];
      runStart := n + 1;
    }

    method Read(lines: seq<Line>)
      requires entries == [] && sections == [[]] && problems == [] && group == [] && open == [] && runStart == 0
      requires items == {} && !tokens && words == []
      modifies this
      ensures Listed(lines, |lines|, entries)
      ensures forall k: nat, p :: k < |entries| ==> ItemsOf(entries[k], p) == Attributed(lines, k, p)
      ensures problems == Complaints(lines, Opening(lines, |lines|))
      ensures Sectioned(lines, |lines|, sections)
    {
      hide State, FirstYield, Complaint, Complaints, Yield, Named, Unknown, Declared, SectionOf;
      NothingRead(lines);
      var n := 0;
      while n < |lines|
        invariant Valid(lines, n) && Sectioned(lines, n, sections)
      {
        TakeLine(lines, n);
        n := n + 1;
      }
      ghost var entries0, group0, open0, problems0 := entries, group, open, problems;
      BeforeClosing(lines, n);
      NoWords(Where());
      CloseGroup();
      AfterAll(lines, entries0, group0, open0, runStart, problems0, entries, group, open, problems);
    }

    /** The body of the loop over the lines. */
    method TakeLine(lines: seq<Line>, n: nat)
      requires Valid(lines, n) && Sectioned(lines, n, sections) && n < |lines|
      modifies this
      ensures Valid(lines, n + 1) && Sectioned(lines, n + 1, sections)
    {
      hide State, FirstYield, Complaint, Complaints, Yield, Named, Unknown, Declared, SectionOf;
      var l := lines[n];
      SectionsGrow(lines, n, sections);
      if l.Rule? {
        TakeRule(lines, n);
        sections := sections + [[]];
      } else {
        if l.Driver? {
          TakeDriver(lines, n, l.driver);
        } else if Lists(l) {
          TakeListing(lines, n, l);
        } else {
          TakeProse(lines, n, l.tokens, l.words);
        }
        sections := sections[|sections| - 1 := sections[|sections| - 1] + [l]];
      }
    }
  }
}

/** Requests for Debian packages: one canonical list however they are written (prepare.py, reference.py). */
module AptRequests {
  import opened Prelude
  import opened PyText

  datatype Check = Check(op: string, version: string)

  datatype Request = Request(name: string, checks: seq<Check>)

  datatype Fault = InvalidName(name: string) | Unsupported(name: string, constraint: string)

  // ---- One line ----

  predicate IsLow(c: char) { 'a' <= c <= 'z' || '0' <= c <= '9' }

  predicate IsBase(s: string) {
    |s| >= 2 && IsLow(s[0]) && forall i :: 0 < i < |s| ==> IsLow(s[i]) || s[i] == '+' || s[i] == '.' || s[i] == '-'
  }

  predicate IsArchitecture(s: string) {
    s != "" && IsLow(s[0]) && forall i :: 0 < i < |s| ==> IsLow(s[i]) || s[i] == '-'
  }

  function UpTo(s: string, c: char): (r: string)
    ensures r <= s && (|r| < |s| ==> s[|r|] == c) && c !in r
  {
    if s == "" || s[0] == c then "" else [s[0]] + UpTo(s[1..], c)
  }

  /** A package name, perhaps with an architecture after a colon. */
  predicate IsName(s: string) {
    var base := UpTo(s, ':');
    IsBase(base) && (base == s || IsArchitecture(s[|base| + 1..]))
  }

  predicate IsVersionChar(c: char) {
    IsLow(c) || 'A' <= c <= 'Z' || c == '.' || c == '+' || c == ':' || c == '~' || c == '-'
  }

  predicate IsVersion(s: string) { s != "" && '0' <= s[0] <= '9' && forall i :: 0 < i < |s| ==> IsVersionChar(s[i]) }

  predicate IsOp(op: string) { op in [">=", "<=", "=", ">", "<"] }

  function OpOf(t: string): string {
    if |t| >= 2 && (t[..2] == ">=" || t[..2] == "<=") then t[..2]
    else if |t| >= 1 && (t[0] == '=' || t[0] == '>' || t[0] == '<') then t[..1]
    else ""
  }

  /** A clause: an operator and a version, spaced at will. */
  function ClauseOf(s: string): Option<Check> {
    var t := Strip(s);
    var op := OpOf(t);
    var version := if |op| <= |t| then StripLeft(t[|op|..]) else "";
    if op == "" || !IsVersion(version) then None else Some(Check(op, version))
  }

  /** s.split(","). */
  function Commas(s: string): (parts: seq<string>)
    ensures parts != []
    decreases |s|
  {
    var first := UpTo(s, ',');
    if |first| == |s| then [s] else [first] + Commas(s[|first| + 1..])
  }

  predicate ClausesOk(parts: seq<string>) { forall p :: p in parts ==> ClauseOf(p).Some? }

  function ClausesOf(parts: seq<string>): set<Check> {
    set p | p in parts && ClauseOf(p).Some? :: ClauseOf(p).value
  }

  /** What a line says. */
  datatype Said = Blank | Asks(name: string, checks: set<Check>) | Bad(fault: Fault)

  function ConstraintOf(line: string): string {
    var t := StripLeft(line);
    var rest := StripLeft(t[|Word(t)|..]);
    if rest == "" then "*" else Strip(rest)
  }

  function NameOf(line: string): string { Word(StripLeft(line)) }

  function LineSays(line: string): Said {
    var name, constraint := NameOf(line), ConstraintOf(line);
    if Strip(line) == "" then Blank
    else if !IsName(name) then Bad(InvalidName(name))
    else if constraint == "*" then Asks(name, {})
    else if ClausesOk(Commas(constraint)) then Asks(name, ClausesOf(Commas(constraint)))
    else Bad(Unsupported(name, constraint))
  }

  // ---- The whole text ----

  predicate Readable(lines: seq<string>) { forall l :: l in lines ==> !LineSays(l).Bad? }

  function Names(lines: seq<string>): set<string> {
    set l | l in lines && LineSays(l).Asks? :: LineSays(l).name
  }

  /** What is asked of the package anywhere in the text. */
  function ChecksFor(lines: seq<string>, name: string): set<Check> {
    set l, c | l in lines && LineSays(l).Asks? && LineSays(l).name == name && c in LineSays(l).checks :: c
  }

  predicate CheckLess(a: Check, b: Check) {
    Precedes(a.op, b.op) || (a.op == b.op && Precedes(a.version, b.version))
  }

  lemma {:induction false} CheckLessIsOrder(a: Check, b: Check, c: Check)
    ensures !CheckLess(a, a)
    ensures a == b || CheckLess(a, b) || CheckLess(b, a)
    ensures CheckLess(a, b) && CheckLess(b, c) ==> CheckLess(a, c)
  {
    hide Precedes;
    PrecedesIsOrder(a.op, b.op, c.op);
    PrecedesIsOrder(a.version, b.version, c.version);
  }

  predicate IsLeastCheck(x: Check, s: set<Check>) { x in s && forall y :: y in s && y != x ==> CheckLess(x, y) }

  lemma {:induction false} HasLeastCheck(s: set<Check>)
    requires s != {}
    ensures exists x :: IsLeastCheck(x, s)
    ensures forall x, y :: IsLeastCheck(x, s) && IsLeastCheck(y, s) ==> x == y
    decreases |s|
  {
    hide CheckLess;
    var a :| a in s;
    if s == {a} {
      assert IsLeastCheck(a, s);
    } else {
      var rest := s - {a};
      assert rest != {};
      HasLeastCheck(rest);
      var b :| IsLeastCheck(b, rest);
      CheckLessIsOrder(a, b, a);
      if CheckLess(a, b) {
        forall y | y in s && y != a ensures CheckLess(a, y) { CheckLessIsOrder(a, b, y); }
        assert IsLeastCheck(a, s);
      } else {
        assert IsLeastCheck(b, s);
      }
    }
    forall x, y | IsLeastCheck(x, s) && IsLeastCheck(y, s) ensures x == y { CheckLessIsOrder(x, y, x); }
  }

  predicate ChecksAscend(cs: seq<Check>) { forall i, j :: 0 <= i < j < |cs| ==> CheckLess(cs[i], cs[j]) }

  /** sorted(checks). */
  function SortedChecks(s: set<Check>): (cs: seq<Check>)
    ensures ChecksAscend(cs) && forall c :: c in cs <==> c in s
    decreases |s|
  {
    if s == {} then []
    else
      HasLeastCheck(s);
      var x :| IsLeastCheck(x, s);
      var rest := SortedChecks(s - {x});
      ChecksAscendMore(x, rest);
      [x] + rest
  }

  lemma {:induction false} ChecksAscendMore(x: Check, rest: seq<Check>)
    requires ChecksAscend(rest)
    ensures (forall c :: c in rest ==> CheckLess(x, c)) ==> ChecksAscend([x] + rest)
  {
    hide CheckLess;
    var cs := [x] + rest;
    assert forall i :: 0 < i < |cs| ==> cs[i] == rest[i - 1] && cs[i] in rest;
  }

  lemma {:induction false} SortedChecksAre(cs: seq<Check>, s: set<Check>)
    requires ChecksAscend(cs) && forall c :: c in cs <==> c in s
    ensures SortedChecks(s) == cs
    decreases |cs|
  {
    hide CheckLess;
    if cs == [] {
      assert s == {};
    } else {
      assert cs[0] in cs;
      HasLeastCheck(s);
      assert IsLeastCheck(cs[0], s);
      FirstOfChecks(cs, s);
      SortedChecksAre(cs[1..], s - {cs[0]});
      assert [cs[0]] + cs[1..] == cs;
    }
  }

  lemma {:induction false} FirstOfChecks(cs: seq<Check>, s: set<Check>)
    requires cs != [] && ChecksAscend(cs) && forall c :: c in cs <==> c in s
    ensures forall c :: c in cs[1..] <==> c in s - {cs[0]}
  {
    hide CheckLess;
    CheckLessIsOrder(cs[0], cs[0], cs[0]);
    forall c ensures c in cs[1..] <==> c in s - {cs[0]} {
      if c in cs[1..] {
        var i :| 0 <= i < |cs| - 1 && cs[1..][i] == c;
        assert cs[i + 1] == c && CheckLess(cs[0], cs[i + 1]);
      }
      if c in s - {cs[0]} {
        var i :| 0 <= i < |cs| && cs[i] == c;
        assert cs[1..][i - 1] == c;
      }
    }
  }

  function RequestOf(lines: seq<string>, name: string): Request {
    Request(name, SortedChecks(ChecksFor(lines, name)))
  }

  function Listed(lines: seq<string>, names: seq<string>): seq<Request> {
    seq(|names|, i requires 0 <= i < |names| => RequestOf(lines, names[i]))
  }

  /** What requests returns: each package once, in order, with everything asked of it, in order. */
  function Requested(lines: seq<string>): seq<Request> { Listed(lines, Sorted(Names(lines))) }

  predicate FirstBad(lines: seq<string>, i: nat, fault: Fault) {
    i < |lines| && Readable(lines[..i]) && LineSays(lines[i]) == Bad(fault)
  }

  /** What has been gathered is what the lines so far say. */
  ghost predicate Gathered(result: map<string, set<Check>>, lines: seq<string>) {
    Readable(lines) && result.Keys == Names(lines) && forall n :: n in result ==> result[n] == ChecksFor(lines, n)
  }

  function Adding(result: map<string, set<Check>>, name: string, checks: set<Check>): map<string, set<Check>> {
    result[name := (if name in result then result[name] else {}) + checks]
  }

  method Requests(lines: seq<string>) returns (r: Result<seq<Request>, Fault>)
    ensures r.Ok? <==> Readable(lines)
    ensures r.Ok? ==> r.value == Requested(lines)
    ensures r.Err? ==> exists i :: 0 <= i < |lines| && FirstBad(lines, i, r.error)
  {
    hide LineSays, Gathered, Readable, ClausesOf, Strip, IsName, Names, ChecksFor, Commas, NameOf, ConstraintOf;
    hide Requested;
    var result: map<string, set<Check>> := map[];
    NothingGathered();
    for i := 0 to |lines|
      invariant Gathered(result, lines[..i])
    {
      var line := lines[i];
      assert lines[..i + 1] == lines[..i] + [line];
      LineIs(line);
      GatherMore(result, lines[..i], line);
      if Strip(line) == "" { continue; }
      var name := NameOf(line);
      GatheredIsReadable(result, lines[..i]);
      if !IsName(name) {
        BadIsUnreadable(lines, i);
        assert FirstBad(lines, i, InvalidName(name));
        return Err(InvalidName(name));
      }
      var constraint := ConstraintOf(line);
      if constraint == "*" {
        result := Adding(result, name, {});
        continue;
      }
      var added := AddClauses(Commas(constraint));
      if added.None? {
        BadIsUnreadable(lines, i);
        assert FirstBad(lines, i, Unsupported(name, constraint));
        return Err(Unsupported(name, constraint));
      }
      result := Adding(result, name, added.value);
    }
    assert lines[..|lines|] == lines;
    GatheredAll(result, lines);
    return Ok(Items(result));
  }

  lemma {:induction false} BadIsUnreadable(lines: seq<string>, i: nat)
    requires i < |lines| && LineSays(lines[i]).Bad?
    ensures !Readable(lines)
  {
    hide LineSays;
    assert lines[i] in lines;
  }

  lemma {:induction false} GatheredIsReadable(result: map<string, set<Check>>, lines: seq<string>)
    requires Gathered(result, lines)
    ensures Readable(lines)
  {
    hide LineSays, Names, ChecksFor;
  }

  lemma {:induction false} NothingGathered()
    ensures Gathered(map[], [])
  {
  }

  lemma {:induction false} GatherMore(result: map<string, set<Check>>, lines: seq<string>, line: string)
    requires Gathered(result, lines)
    ensures match LineSays(line)
      case Blank => Gathered(result, lines + [line])
      case Asks(name, checks) => Gathered(Adding(result, name, checks), lines + [line])
      case Bad(_) => true
  {
    hide LineSays, Names, ChecksFor, Readable;
    forall n { OneMoreLine(lines, line, n); }
    OneMoreLine(lines, line, "");
    match LineSays(line)
    case Asks(name, checks) =>
      if name !in result { NotNamed(lines, name); }
    case _ =>
      assert Names(lines) + {} == Names(lines);
      assert forall n :: ChecksFor(lines + [line], n) == ChecksFor(lines, n);
  }

  lemma {:induction false} NotNamed(lines: seq<string>, name: string)
    requires name !in Names(lines)
    ensures ChecksFor(lines, name) == {}
  {
    hide LineSays;
  }

  /** sorted(result.items()), each with its checks sorted. */
  function Items(result: map<string, set<Check>>): seq<Request> {
    var names := Sorted(result.Keys);
    seq(|names|, i requires 0 <= i < |names| => Request(names[i], SortedChecks(result[names[i]])))
  }

  lemma {:induction false} GatheredAll(result: map<string, set<Check>>, lines: seq<string>)
    requires Gathered(result, lines)
    ensures Readable(lines) && Items(result) == Requested(lines)
  {
    hide LineSays, Names, ChecksFor, Readable, SortedChecks;
    var names := Sorted(result.Keys);
    forall i | 0 <= i < |names| ensures Items(result)[i] == RequestOf(lines, names[i]) { assert names[i] in names; }
  }

  /** The loop over a line's clauses. */
  method AddClauses(clauses: seq<string>) returns (r: Option<set<Check>>)
    ensures r == if ClausesOk(clauses) then Some(ClausesOf(clauses)) else None
  {
    hide ClauseOf;
    var checks: set<Check> := {};
    for i := 0 to |clauses|
      invariant ClausesOk(clauses[..i]) && checks == ClausesOf(clauses[..i])
    {
      assert clauses[..i + 1] == clauses[..i] + [clauses[i]];
      var c := ClauseOf(clauses[i]);
      if c.None? { return None; }
      checks := checks + {c.value};
    }
    assert clauses[..|clauses|] == clauses;
    return Some(checks);
  }

  lemma {:induction false} LineIs(line: string)
    ensures var (name, constraint) := (NameOf(line), ConstraintOf(line));
      if Strip(line) == "" then LineSays(line) == Blank
      else if !IsName(name) then LineSays(line) == Bad(InvalidName(name))
      else if constraint == "*" then LineSays(line) == Asks(name, {})
      else if ClausesOk(Commas(constraint)) then LineSays(line) == Asks(name, ClausesOf(Commas(constraint)))
      else LineSays(line) == Bad(Unsupported(name, constraint))
  {
  }

  lemma {:induction false} OneMoreLine(lines: seq<string>, line: string, n: string)
    ensures Readable(lines + [line]) <==> Readable(lines) && !LineSays(line).Bad?
    ensures Names(lines + [line]) == Names(lines) + (if LineSays(line).Asks? then {LineSays(line).name} else {})
    ensures var more := if LineSays(line).Asks? && LineSays(line).name == n then LineSays(line).checks else {};
      ChecksFor(lines + [line], n) == ChecksFor(lines, n) + more
  {
    hide LineSays;
  }

  // ---- However it is written ----

  /** The result does not depend on the order of the lines, nor on how often each stands. */
  lemma {:induction false} AnyOrder(a: seq<string>, b: seq<string>)
    requires forall l :: l in a <==> l in b
    ensures Readable(a) <==> Readable(b)
    ensures Requested(a) == Requested(b)
  {
    hide LineSays;
    assert Names(a) == Names(b);
    forall n ensures ChecksFor(a, n) == ChecksFor(b, n) {}
    SameListed(a, b, Sorted(Names(a)));
  }

  lemma {:induction false} SameListed(a: seq<string>, b: seq<string>, names: seq<string>)
    requires forall n :: ChecksFor(a, n) == ChecksFor(b, n)
    ensures Listed(a, names) == Listed(b, names)
  {
  }

  /** Clauses of one package may stand on one line or on several: a line that says what two lines say together does for
      both. */
  lemma {:induction false} SplitLine(lines: seq<string>, whole: string, one: string, other: string)
    requires LineSays(whole).Asks? && LineSays(one).Asks? && LineSays(other).Asks?
    requires LineSays(whole).name == LineSays(one).name == LineSays(other).name
    requires LineSays(whole).checks == LineSays(one).checks + LineSays(other).checks
    ensures Readable(lines + [whole]) <==> Readable(lines + [one] + [other])
    ensures Requested(lines + [whole]) == Requested(lines + [one] + [other])
  {
    hide LineSays, Readable, Names, ChecksFor;
    forall n ensures ChecksFor(lines + [whole], n) == ChecksFor(lines + [one] + [other], n) {
      OneMoreLine(lines, whole, n);
      OneMoreLine(lines, one, n);
      OneMoreLine(lines + [one], other, n);
    }
    OneMoreLine(lines, whole, "");
    OneMoreLine(lines, one, "");
    OneMoreLine(lines + [one], other, "");
    SameListed(lines + [whole], lines + [one] + [other], Sorted(Names(lines + [whole])));
  }

  lemma {:induction false} UpToFirst(a: string, c: char, b: string)
    requires c !in a
    ensures UpTo(a + [c] + b, c) == a && UpTo(a, c) == a
    decreases |a|
  {
    if a != "" {
      UpToFirst(a[1..], c, b);
      assert (a + [c] + b)[1..] == a[1..] + [c] + b;
    }
  }

  /** Commas join clauses: a list of clauses is what its two parts are, wherever it is cut. */
  lemma {:induction false} CommasJoin(a: string, b: string)
    ensures Commas(a + "," + b) == Commas(a) + Commas(b)
    decreases |a|
  {
    var first := UpTo(a, ',');
    if |first| == |a| {
      UpToFirst(a, ',', b);
      assert (a + "," + b)[|a| + 1..] == b;
    } else {
      var rest := a[|first| + 1..];
      assert a == first + "," + rest;
      assert a + "," + b == first + "," + (rest + "," + b);
      UpToFirst(first, ',', rest + "," + b);
      assert (a + "," + b)[|first| + 1..] == rest + "," + b;
      CommasJoin(rest, b);
      assert [first] + (Commas(rest) + Commas(b)) == [first] + Commas(rest) + Commas(b);
    }
  }

  lemma {:induction false} ClausesJoin(a: seq<string>, b: seq<string>)
    ensures ClausesOk(a + b) <==> ClausesOk(a) && ClausesOk(b)
    ensures ClausesOf(a + b) == ClausesOf(a) + ClausesOf(b)
  {
    hide ClauseOf;
  }

  // ---- Printing requests and reading them back ----

  function ClauseText(c: Check): string { c.op + " " + c.version }

  /** ", ".join(...) of the clauses, or "*" without any. */
  function Constraint(cs: seq<Check>): string {
    if cs == [] then "*"
    else if |cs| == 1 then ClauseText(cs[0])
    else Constraint(cs[..|cs| - 1]) + ", " + ClauseText(cs[|cs| - 1])
  }

  predicate CheckOk(c: Check) { IsOp(c.op) && IsVersion(c.version) }

  predicate IsRequest(r: Request) {
    IsName(r.name) && (forall c :: c in r.checks ==> CheckOk(c)) && ChecksAscend(r.checks)
  }

  /** Requests in canonical form: names in order, each once. */
  predicate IsCanonical(rs: seq<Request>) {
    (forall i :: 0 <= i < |rs| ==> IsRequest(rs[i])) && Ascending(NamesOf(rs))
  }

  function NamesOf(rs: seq<Request>): seq<string> { seq(|rs|, i requires 0 <= i < |rs| => rs[i].name) }

  function Line(r: Request): string { r.name + " " + Constraint(r.checks) }

  function Printed(rs: seq<Request>): seq<string> { seq(|rs|, i requires 0 <= i < |rs| => Line(rs[i])) }

  lemma {:induction false} Stripped(s: string)
    requires s != "" && !IsSpace(s[0]) && !IsSpace(s[|s| - 1])
    ensures StripLeft(s) == s && Strip(s) == s
  {
    assert s + "" == s;
    RightStripped(s, "");
  }

  lemma {:induction false} VersionHasNoSpace(v: string)
    requires IsVersion(v)
    ensures forall i :: 0 <= i < |v| ==> !IsSpace(v[i]) && v[i] != ','
  {
  }

  lemma {:induction false} TextEdges(c: Check)
    requires CheckOk(c)
    ensures var t := ClauseText(c); t != "" && t[0] != '*' && !IsSpace(t[0]) && !IsSpace(t[|t| - 1]) && ',' !in t
  {
    VersionHasNoSpace(c.version);
    var t := ClauseText(c);
    assert t[0] == c.op[0] && t[|t| - 1] == c.version[|c.version| - 1];
  }

  /** A clause as it is printed reads as itself, with a blank before it or not. */
  lemma {:induction false} ClauseReads(c: Check)
    requires CheckOk(c)
    ensures ClauseOf(ClauseText(c)) == Some(c) && ClauseOf(" " + ClauseText(c)) == Some(c)
  {
    var t := ClauseText(c);
    TextEdges(c);
    OpRead(c);
    VersionHasNoSpace(c.version);
    assert IsSpace(' ');
    assert t[|c.op|..] == " " + c.version && c.op != "";
    assert c.version != "" && !IsSpace(c.version[0]);
    hide IsSpace, OpOf, IsVersion, IsOp, StripLeft, StripRight;
    Stripped(t);
    LeftStripped(" ", t);
    LeftStripped(" ", c.version);
  }

  lemma {:induction false} OpRead(c: Check)
    requires CheckOk(c)
    ensures OpOf(ClauseText(c)) == c.op
  {
    var t := ClauseText(c);
    assert |c.op| == 2 ==> t[..2] == c.op;
    assert |c.op| == 1 ==> t[..1] == c.op && t[1] == ' ' && t[..2][1] == ' ';
    assert ">="[1] == '=' && "<="[1] == '=';
  }

  lemma {:induction false} JoinClause(head: string, c: Check)
    requires CheckOk(c) && ClausesOk(Commas(head))
    ensures var t := head + ", " + ClauseText(c);
      ClausesOk(Commas(t)) && ClausesOf(Commas(t)) == ClausesOf(Commas(head)) + {c}
  {
    hide ClauseOf, Commas, CheckOk;
    var last := " " + ClauseText(c);
    ClauseReads(c);
    TextEdges(c);
    assert head + ", " + ClauseText(c) == head + "," + last;
    hide ClauseText;
    CommasJoin(head, last);
    OnePart(last);
    ClausesJoin(Commas(head), [last]);
    OneClause(last, c);
  }

  lemma {:induction false} OneClause(s: string, c: Check)
    requires ClauseOf(s) == Some(c)
    ensures ClausesOk([s]) && ClausesOf([s]) == {c}
  {
    hide ClauseOf;
  }

  lemma {:induction false} ConstraintReads(cs: seq<Check>)
    requires cs != [] && forall c :: c in cs ==> CheckOk(c)
    ensures var t := Constraint(cs); ClausesOk(Commas(t)) && ClausesOf(Commas(t)) == (set c | c in cs)
    ensures var t := Constraint(cs); t != "" && t[0] != '*' && !IsSpace(t[0]) && !IsSpace(t[|t| - 1])
    decreases |cs|
  {
    hide ClauseText, CheckOk, IsSpace, ClausesOk, ClausesOf, Commas, ClauseOf;
    var k := |cs| - 1;
    TextEdges(cs[k]);
    if k == 0 {
      ClauseReads(cs[0]);
      OnePart(ClauseText(cs[0]));
      OneClause(ClauseText(cs[0]), cs[0]);
      assert (set c | c in cs) == {cs[0]};
    } else {
      ConstraintReads(cs[..k]);
      JoinClause(Constraint(cs[..k]), cs[k]);
      assert cs == cs[..k] + [cs[k]];
      assert (set c | c in cs) == (set c | c in cs[..k]) + {cs[k]};
    }
  }

  lemma {:induction false} OnePart(s: string)
    requires ',' !in s
    ensures Commas(s) == [s]
  {
    UpToFirst(s, ',', "");
  }

  lemma {:induction false} NameIsWord(name: string)
    requires IsName(name)
    ensures IsWord(name)
  {
    var base := UpTo(name, ':');
    forall i | 0 <= i < |name| ensures !IsSpace(name[i]) {
      if i < |base| {
        assert name[i] == base[i];
      } else if i > |base| {
        assert name[i] == name[|base| + 1..][i - |base| - 1];
      }
    }
  }

  // ---- However a line is written ----

  /** The clauses of a constraint, without the blanks around them. */
  function Clauses(constraint: string): set<string> { set p | p in Commas(constraint) :: Strip(p) }

  lemma {:induction false} BlanksBefore(lead: string, s: string)
    requires Spaces(lead)
    ensures Clauses(lead + s) == Clauses(s)
  {
    NoCommaInBlanks(lead);
    var first := UpTo(s, ',');
    hide Strip, UpTo, Commas, Spaces, IsSpace;
    OnePart(first);
    OnePart(lead + first);
    StrippedOfBlanks(lead, first, "");
    assert lead + first + "" == lead + first;
    if |first| == |s| {
      assert first == s;
    } else {
      var rest := s[|first| + 1..];
      assert s == first + "," + rest && lead + s == lead + first + "," + rest;
      CommasJoin(first, rest);
      CommasJoin(lead + first, rest);
      ClausesMore(first, Commas(rest));
      ClausesMore(lead + first, Commas(rest));
    }
  }

  lemma {:induction false} BlanksAfter(s: string, tail: string)
    requires Spaces(tail)
    ensures Clauses(s + tail) == Clauses(s)
    decreases |s|
  {
    hide Strip;
    var first := UpTo(s, ',');
    if |first| == |s| {
      NoCommaInBlanks(tail);
      OnePart(s);
      OnePart(s + tail);
      StrippedOfBlanks("", s, tail);
      assert "" + s + tail == s + tail;
    } else {
      var rest := s[|first| + 1..];
      BlanksAfter(rest, tail);
      assert s == first + "," + rest && s + tail == first + "," + (rest + tail);
      CommasJoin(first, rest);
      CommasJoin(first, rest + tail);
      OnePart(first);
      ClausesMore(first, Commas(rest));
      ClausesMore(first, Commas(rest + tail));
    }
  }

  lemma {:induction false} ClausesMore(first: string, rest: seq<string>)
    ensures (set p | p in [first] + rest :: Strip(p)) == {Strip(first)} + set p | p in rest :: Strip(p)
  {
    hide Strip;
    assert forall p :: p in [first] + rest <==> p == first || p in rest;
  }

  lemma {:induction false} NoCommaInBlanks(s: string)
    requires Spaces(s)
    ensures ',' !in s
  {
  }

  lemma {:induction false} ClausesOfStripped(s: string)
    ensures Clauses(Strip(s)) == Clauses(s)
  {
    hide Clauses, Strip;
    var lead, tail := BlanksAround(s);
    BlanksBefore(lead, Strip(s) + tail);
    BlanksAfter(Strip(s), tail);
    assert lead + (Strip(s) + tail) == lead + Strip(s) + tail;
  }

  lemma {:induction false} ClauseOfStripped(p: string)
    ensures ClauseOf(Strip(p)) == ClauseOf(p)
  {
    hide Strip;
    var lead, tail := BlanksAround(p);
  }

  /** The clauses alone decide whether a constraint is read, and as what. */
  lemma {:induction false} ClausesDecide(c: string)
    ensures ClausesOk(Commas(c)) <==> forall t :: t in Clauses(c) ==> ClauseOf(t).Some?
    ensures ClausesOf(Commas(c)) == set t | t in Clauses(c) && ClauseOf(t).Some? :: ClauseOf(t).value
  {
    hide ClauseOf, Strip;
    forall p: string { ClauseOfStripped(p); }
    forall p | p in Commas(c) ensures Strip(p) in Clauses(c) {}
    assert forall t :: t in Clauses(c) ==> exists p :: p in Commas(c) && Strip(p) == t;
  }

  /** A line about a package, indented and spaced at will. */
  function Spelled(indent: string, name: string, gap: string, constraint: string): string {
    indent + (name + (gap + constraint))
  }

  predicate IsSpacing(indent: string, gap: string) { Spaces(indent) && Spaces(gap) && gap != "" }

  lemma {:induction false} LineParts(indent: string, name: string, gap: string, constraint: string)
    requires IsName(name) && IsSpacing(indent, gap)
    ensures var line := Spelled(indent, name, gap, constraint);
      NameOf(line) == name && Strip(line) != "" &&
      ConstraintOf(line) == if Strip(constraint) == "" then "*" else Strip(constraint)
  {
    hide IsName;
    NameIsWord(name);
    var rest := gap + constraint;
    var t := name + rest;
    assert t[0] == name[0] && !IsSpace(t[0]) && IsSpace(rest[0]);
    LeftStripped(indent, t);
    WordRead(name, rest);
    assert t[|name|..] == rest;
    LeftStrippedAny(gap, constraint);
    StripKeepsHead(t);
    var lead, tail := BlanksAround(constraint);
  }

  /** No constraint, or a star: nothing is asked but the package. Beside other clauses either is a fault. */
  predicate IsBare(c: string) { Strip(c) == "" || Strip(c) == "*" }

  /** What a line about a package says, whatever its spacing. */
  function SaidBy(name: string, c: string): Said {
    if IsBare(c) then Asks(name, {})
    else if ClausesOk(Commas(c)) then Asks(name, ClausesOf(Commas(c)))
    else Bad(Unsupported(name, Strip(c)))
  }

  lemma {:induction false} LineSaysClauses(indent: string, name: string, gap: string, c: string)
    requires IsName(name) && IsSpacing(indent, gap)
    ensures LineSays(Spelled(indent, name, gap, c)) == SaidBy(name, c)
  {
    var line := Spelled(indent, name, gap, c);
    LineParts(indent, name, gap, c);
    LineIs(line);
    hide LineSays, IsName, ConstraintOf, NameOf, ClauseOf, Spelled;
    ClausesOfStripped(c);
    ClausesDecide(c);
    ClausesDecide(Strip(c));
  }

  lemma {:induction false} StarIsNoClause()
    ensures ClauseOf("") == None && ClauseOf("*") == None
  {
    assert !IsSpace('*');
    Stripped("*");
    assert Strip("") == "";
  }

  lemma {:induction false} BareClauses(c: string)
    requires IsBare(c)
    ensures !ClausesOk(Commas(c))
  {
    hide ClausesOk, ClauseOf, Strip;
    var t := Strip(c);
    ClausesOfStripped(c);
    ClausesDecide(c);
    assert ',' !in t;
    OnePart(t);
    assert Strip(t) in Clauses(t) by { assert t in Commas(t); }
    ClauseOfStripped(t);
    StarIsNoClause();
  }

  lemma {:induction false} CommaIsNotBare(a: string, b: string)
    ensures !IsBare(a + "," + b)
  {
    var c := a + "," + b;
    var lead, tail := BlanksAround(c);
    NoCommaInBlanks(lead);
    NoCommaInBlanks(tail);
    hide Strip;
    assert c[|a|] == ',' && ',' in lead + Strip(c) + tail;
    assert ',' in Strip(c);
  }

  /** Two lines of one package with the same clauses, in whatever order, however often and with whatever blanks, do the
      same, when neither or both are bare: a star alone is accepted, and a star twice is not. */
  lemma {:induction false} SameClauses(lines: seq<string>, name: string, indent: string, gap: string, c: string,
      indent': string, gap': string, c': string)
    requires IsName(name) && IsSpacing(indent, gap) && IsSpacing(indent', gap')
    requires Clauses(c) == Clauses(c')
    ensures var (one, other) := (Spelled(indent, name, gap, c), Spelled(indent', name, gap', c'));
      if IsBare(c) <==> IsBare(c') then
        (Readable(lines + [one]) <==> Readable(lines + [other])) &&
        Requested(lines + [one]) == Requested(lines + [other])
      else
        Readable(lines) ==> (Readable(lines + [one]) <==> !Readable(lines + [other]))
  {
    hide IsName, IsSpacing, Clauses, Commas, ClausesOk, ClausesOf, ClauseOf, Spelled, LineSays, Readable, Names, IsBare;
    hide ChecksFor, Requested;
    var one, other := Spelled(indent, name, gap, c), Spelled(indent', name, gap', c');
    LineSaysClauses(indent, name, gap, c);
    LineSaysClauses(indent', name, gap', c');
    ClausesDecide(c);
    ClausesDecide(c');
    OneMoreLine(lines, one, "");
    OneMoreLine(lines, other, "");
    if IsBare(c) <==> IsBare(c') {
      SameSaid(lines, one, other);
    } else if IsBare(c) {
      BareClauses(c);
    } else {
      BareClauses(c');
    }
  }

  lemma {:induction false} SameSaid(lines: seq<string>, one: string, other: string)
    requires LineSays(one) == LineSays(other) || (LineSays(one).Bad? && LineSays(other).Bad?)
    ensures Requested(lines + [one]) == Requested(lines + [other])
  {
    hide LineSays, Names, ChecksFor;
    forall n ensures ChecksFor(lines + [one], n) == ChecksFor(lines + [other], n) {
      OneMoreLine(lines, one, n);
      OneMoreLine(lines, other, n);
    }
    OneMoreLine(lines, one, "");
    OneMoreLine(lines, other, "");
    SameListed(lines + [one], lines + [other], Sorted(Names(lines + [one])));
  }

  /** A line's clauses may be cut apart at any comma, blanks beside it or not, and its parts written as two lines,
      unless a part is bare: the whole line is refused then, and two lines need not be. */
  lemma {:induction false} CutLine(lines: seq<string>, name: string, indent: string, gap: string, a: string, b: string)
    requires IsName(name) && IsSpacing(indent, gap)
    ensures var (whole, one, other) := (Spelled(indent, name, gap, a + "," + b), Spelled(indent, name, gap, a),
        Spelled(indent, name, gap, b));
      if IsBare(a) || IsBare(b) then
        !Readable(lines + [whole]) &&
        (Readable(lines + [one] + [other]) <==>
          Readable(lines) && (IsBare(a) || ClausesOk(Commas(a))) && (IsBare(b) || ClausesOk(Commas(b))))
      else
        (Readable(lines + [whole]) <==> Readable(lines + [one] + [other])) &&
        (Readable(lines + [whole]) ==> Requested(lines + [whole]) == Requested(lines + [one] + [other]))
  {
    hide IsName, IsSpacing, Commas, ClausesOf, ClauseOf, Spelled, LineSays, Readable, Names, Requested, IsBare;
    var whole := Spelled(indent, name, gap, a + "," + b);
    var one, other := Spelled(indent, name, gap, a), Spelled(indent, name, gap, b);
    CommasJoin(a, b);
    ClausesJoin(Commas(a), Commas(b));
    assert ClausesOk(Commas(a + "," + b)) <==> ClausesOk(Commas(a)) && ClausesOk(Commas(b));
    hide ClausesOk;
    CommaIsNotBare(a, b);
    LineSaysClauses(indent, name, gap, a + "," + b);
    LineSaysClauses(indent, name, gap, a);
    LineSaysClauses(indent, name, gap, b);
    OneMoreLine(lines, whole, "");
    OneMoreLine(lines, one, "");
    OneMoreLine(lines + [one], other, "");
    if IsBare(a) {
      BareClauses(a);
    } else if IsBare(b) {
      BareClauses(b);
    } else if ClausesOk(Commas(a)) && ClausesOk(Commas(b)) {
      SplitLine(lines, whole, one, other);
    }
  }

  /** A star, and a star twice: the same clauses. The first line is accepted, also twice, and the second is not. */
  lemma {:induction false} StarTwice()
    ensures Clauses("*") == Clauses("*,*") && IsBare("*") && !IsBare("*,*")
    ensures Spelled("", "ab", " ", "*") == "ab *" && Spelled("", "ab", " ", "*" + "," + "*") == "ab *,*"
    ensures LineSays("ab *") == Asks("ab", {}) && LineSays("ab *,*").Bad?
    ensures Readable(["ab *"]) && Readable(["ab *"] + ["ab *"]) && !Readable(["ab *,*"])
  {
    hide IsBare, LineSays, Clauses, ClausesOk, Commas, IsName, IsSpacing, Strip;
    StarIsBare();
    TwoStars();
    CommaIsNotBare("*", "*");
    LineSaysClauses("", "ab", " ", "*");
    LineSaysClauses("", "ab", " ", "*,*");
    assert "ab *,*" in ["ab *,*"];
  }

  lemma {:induction false} StarIsBare()
    ensures IsName("ab") && IsSpacing("", " ") && IsBare("*")
  {
    UpToFirst("ab", ':', "");
    assert !IsSpace('*');
    Stripped("*");
  }

  lemma {:induction false} TwoStars()
    ensures "*" + "," + "*" == "*,*" && Clauses("*") == Clauses("*,*") && !ClausesOk(Commas("*,*"))
  {
    hide ClauseOf, Strip;
    assert "*" + "," + "*" == "*,*";
    CommasJoin("*", "*");
    OnePart("*");
    assert "*" in Commas("*,*");
    StarIsNoClause();
  }

  lemma {:induction false} ConstraintSays(name: string, cs: seq<Check>)
    requires forall c :: c in cs ==> CheckOk(c)
    ensures SaidBy(name, Constraint(cs)) == Asks(name, set c | c in cs)
  {
    hide Strip, Commas, ClausesOk, ClausesOf, CheckOk;
    var constraint := Constraint(cs);
    if cs == [] {
      StarIsBare();
    } else {
      hide Constraint, IsSpace;
      ConstraintReads(cs);
      Stripped(constraint);
    }
  }

  lemma {:induction false} LineReads(r: Request)
    requires IsRequest(r)
    ensures LineSays(Line(r)) == Asks(r.name, set c | c in r.checks)
  {
    StarIsBare();
    hide IsName, IsSpacing, Constraint, SaidBy, CheckOk, LineSays;
    assert Line(r) == Spelled("", r.name, " ", Constraint(r.checks));
    LineSaysClauses("", r.name, " ", Constraint(r.checks));
    ConstraintSays(r.name, r.checks);
  }

  /** Canonical requests, printed one a line, are read back as they were. */
  lemma {:induction false} PrintedReads(rs: seq<Request>)
    requires IsCanonical(rs)
    ensures Readable(Printed(rs)) && Requested(Printed(rs)) == rs
  {
    hide LineSays, Line, IsRequest;
    var lines, names := Printed(rs), NamesOf(rs);
    forall i | 0 <= i < |rs| ensures LineSays(lines[i]) == Asks(rs[i].name, set c | c in rs[i].checks) {
      LineReads(rs[i]);
    }
    forall n ensures n in Names(lines) <==> n in names {
      if n in names { var i :| 0 <= i < |rs| && names[i] == n; assert lines[i] in lines; }
      if n in Names(lines) {
        var l :| l in lines && LineSays(l).Asks? && LineSays(l).name == n;
        var i :| 0 <= i < |rs| && lines[i] == l;
        assert names[i] == n;
      }
    }
    AscendingIsUnique(Sorted(Names(lines)), names);
    forall i | 0 <= i < |rs| ensures RequestOf(lines, names[i]) == rs[i] {
      CheckSets(rs, i);
      SortedChecksAre(rs[i].checks, ChecksFor(lines, rs[i].name));
    }
  }

  lemma {:induction false} CheckSets(rs: seq<Request>, i: nat)
    requires IsCanonical(rs) && i < |rs|
    ensures forall c :: c in rs[i].checks <==> c in ChecksFor(Printed(rs), rs[i].name)
    ensures ChecksAscend(rs[i].checks)
  {
    hide LineSays, Line;
    var lines, names := Printed(rs), NamesOf(rs);
    forall j | 0 <= j < |rs| ensures LineSays(lines[j]) == Asks(rs[j].name, set c | c in rs[j].checks) {
      LineReads(rs[j]);
    }
    assert lines[i] in lines && LineSays(lines[i]).name == rs[i].name;
    forall c | c in rs[i].checks ensures c in ChecksFor(lines, rs[i].name) { assert c in LineSays(lines[i]).checks; }
    forall c | c in ChecksFor(lines, rs[i].name) ensures c in rs[i].checks {
      var l :| l in lines && LineSays(l).Asks? && LineSays(l).name == rs[i].name && c in LineSays(l).checks;
      var j :| 0 <= j < |rs| && lines[j] == l;
      assert names[j] == names[i];
      if j != i { PrecedesIsOrder(names[i], names[i], names[i]); }
      assert j == i;
    }
  }

  lemma {:induction false} ClauseIsOk(s: string)
    ensures ClauseOf(s).Some? ==> CheckOk(ClauseOf(s).value)
  {
    var t := Strip(s);
    assert t != "" ==> t[..1] == [t[0]];
  }

  lemma {:induction false} LineIsOk(line: string)
    requires LineSays(line).Asks?
    ensures IsName(LineSays(line).name) && forall c :: c in LineSays(line).checks ==> CheckOk(c)
  {
    hide ClauseOf, CheckOk, IsName;
    forall p: string { ClauseIsOk(p); }
  }

  /** What requests returns is canonical, so printing and reading it again changes nothing. */
  lemma {:induction false} RequestedIsCanonical(lines: seq<string>)
    ensures IsCanonical(Requested(lines))
    ensures Readable(Printed(Requested(lines))) && Requested(Printed(Requested(lines))) == Requested(lines)
  {
    hide LineSays, CheckOk, IsName;
    var rs, names := Requested(lines), Sorted(Names(lines));
    assert NamesOf(rs) == names;
    forall i | 0 <= i < |rs| ensures IsRequest(rs[i]) {
      assert names[i] in names;
      var l :| l in lines && LineSays(l).Asks? && LineSays(l).name == names[i];
      LineIsOk(l);
      forall c | c in rs[i].checks ensures CheckOk(c) {
        var l' :| l' in lines && LineSays(l').Asks? && LineSays(l').name == names[i] && c in LineSays(l').checks;
        LineIsOk(l');
      }
    }
    PrintedReads(rs);
  }
}

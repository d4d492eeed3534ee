/** Reading Mozilla's certdata.txt (certdata-to-pem.py). */
module CertData {
  import opened Prelude
  import opened PyText

  // ---- Lines ----

  /** s.split(None, 2) of a stripped string. */
  function Split(s: string): (parts: seq<string>)
    ensures |parts| <= 3 && (|parts| == 3 ==> parts[2] != "")
  {
    if s == "" then []
    else
      var first := Word(s);
      var rest := StripLeft(s[|first|..]);
      if rest == "" then [first]
      else
        var second := Word(rest);
        var value := StripLeft(rest[|second|..]);
        if value == "" then [first, second] else [first, second, value]
  }

  function Concat(ls: seq<string>): string {
    if ls == [] then "" else Concat(ls[..|ls| - 1]) + Strip(ls[|ls| - 1])
  }

  // ---- Octal blocks ----

  predicate IsOctal(c: char) { '0' <= c <= '7' }

  function Digit(c: char): int { c as int - '0' as int }

  function OctalChar(d: nat): char
    requires d < 8
  {
    ('0' as int + d) as char
  }

  /** OCTAL_BLOCK and the bytes it stands for: a backslash and three octal digits a byte. */
  function Octal(s: string): Option<seq<byte>> {
    if s == "" then Some([])
    else if |s| < 4 || s[0] != '\\' || !('0' <= s[1] <= '3') || !IsOctal(s[2]) || !IsOctal(s[3]) then None
    else
      match Octal(s[4..])
      case None => None
      case Some(rest) => Some([64 * Digit(s[1]) + 8 * Digit(s[2]) + Digit(s[3])] + rest)
  }

  function OctalByte(b: byte): string {
    var n: int := b;
    ['\\', OctalChar(n / 64), OctalChar(n / 8 % 8), OctalChar(n % 8)]
  }

  function OctalOf(bs: seq<byte>): string {
    if bs == [] then "" else OctalByte(bs[0]) + OctalOf(bs[1..])
  }

  lemma {:induction false} OctalDigits(s: string, b: byte)
    requires |s| == 4 && s[0] == '\\'
    ensures s == OctalByte(b) <==>
      '0' <= s[1] <= '3' && IsOctal(s[2]) && IsOctal(s[3]) && b == 64 * Digit(s[1]) + 8 * Digit(s[2]) + Digit(s[3])
  {
    var n: int := b;
    assert OctalByte(b) == ['\\', OctalChar(n / 64), OctalChar(n / 8 % 8), OctalChar(n % 8)];
    assert s == [s[0], s[1], s[2], s[3]];
  }

  /** A block is read as some bytes exactly when it is the octal writing of them. */
  lemma {:induction false} OctalExactly(s: string, bs: seq<byte>)
    ensures Octal(s) == Some(bs) <==> s == OctalOf(bs)
    decreases |s|
  {
    if |s| >= 4 && s[0] == '\\' && bs != [] {
      OctalDigits(s[..4], bs[0]);
      OctalExactly(s[4..], bs[1..]);
      assert s == s[..4] + s[4..];
      assert bs == [bs[0]] + bs[1..];
      assert s == OctalOf(bs) <==> s[..4] == OctalByte(bs[0]) && s[4..] == OctalOf(bs[1..]);
    }
  }

  lemma {:induction false} OctalChars(bs: seq<byte>)
    ensures forall i :: 0 <= i < |OctalOf(bs)| ==> OctalOf(bs)[i] == '\\' || IsOctal(OctalOf(bs)[i])
  {
    if bs != [] { OctalChars(bs[1..]); }
  }

  lemma {:induction false} ConcatHolds(ls: seq<string>, k: nat, c: char)
    requires k < |ls| && c in Strip(ls[k])
    ensures c in Concat(ls)
    decreases |ls|
  {
    if k < |ls| - 1 { ConcatHolds(ls[..|ls| - 1], k, c); }
  }

  /** However a block's octal is broken into lines, none of them looks like its end. */
  lemma {:induction false} OctalHasNoEnd(body: seq<string>, bs: seq<byte>)
    requires Concat(body) == OctalOf(bs)
    ensures forall i :: 0 <= i < |body| ==> Strip(body[i]) != "END"
  {
    OctalChars(bs);
    forall i | 0 <= i < |body| ensures Strip(body[i]) != "END" {
      if Strip(body[i]) == "END" {
        assert "END"[0] == 'E';
        ConcatHolds(body, i, 'E');
      }
    }
  }

  // ---- Spacing ----

  /** An attribute line may be indented and spaced at will. */
  lemma {:induction false} HeaderReads(indent: string, name: string, gap: string, kind: string, gap': string,
      value: string, tail: string)
    requires Spaces(indent) && IsWord(name) && Spaces(gap) && gap != "" && IsWord(kind) && Spaces(gap') && gap' != ""
    requires value != "" && !IsSpace(value[0]) && !IsSpace(value[|value| - 1]) && Spaces(tail)
    ensures Split(Strip(indent + (name + (gap + (kind + (gap' + value)))) + tail)) == [name, kind, value]
  {
    var rest := kind + (gap' + value);
    var s := name + (gap + rest);
    assert s[|s| - 1] == value[|value| - 1];
    assert indent + s + tail == indent + (s + tail);
    LeftStripped(indent, s + tail);
    RightStripped(s, tail);
    WordRead(name, gap + rest);
    assert s[|name|..] == gap + rest;
    LeftStripped(gap, rest);
    WordRead(kind, gap' + value);
    assert rest[|kind|..] == gap' + value;
    LeftStripped(gap', value);
  }

  /** So may the line that opens an octal block, which has no value. */
  lemma {:induction false} OpenerReads(indent: string, name: string, gap: string, kind: string, tail: string)
    requires Spaces(indent) && IsWord(name) && Spaces(gap) && gap != "" && IsWord(kind) && Spaces(tail)
    ensures Split(Strip(indent + (name + (gap + kind)) + tail)) == [name, kind]
  {
    var s := name + (gap + kind);
    assert s[|s| - 1] == kind[|kind| - 1];
    assert indent + s + tail == indent + (s + tail);
    LeftStripped(indent, s + tail);
    RightStripped(s, tail);
    WordRead(name, gap + kind);
    assert s[|name|..] == gap + kind;
    LeftStripped(gap, kind);
    WordRead(kind, "");
    assert kind + "" == kind && kind[|kind|..] == "";
  }

  // ---- Objects ----

  datatype Value = Bytes(bytes: seq<byte>) | Str(text: string)

  type Obj = map<string, Value>

  datatype Attr = Attr(name: string, value: Value)

  const CLASS := "CKA_CLASS"
  const OCTAL := "MULTILINE_OCTAL"

  /** ATTRIBUTE. */
  predicate IsAttribute(name: string) {
    |name| > 4 && name[..4] == "CKA_" &&
    forall i :: 4 <= i < |name| ==> 'A' <= name[i] <= 'Z' || '0' <= name[i] <= '9' || name[i] == '_'
  }

  /** EXPECTED_KINDS: attributes not listed there may be of any kind. */
  predicate KindFits(name: string, kind: string) {
    if name == CLASS then kind == "CK_OBJECT_CLASS"
    else if name == "CKA_LABEL" then kind == "UTF8"
    else if name in ["CKA_ISSUER", "CKA_SERIAL_NUMBER", "CKA_VALUE"] then kind == OCTAL
    else if name == "CKA_TRUST_SERVER_AUTH" then kind == "CK_TRUST"
    else if name == "CKA_NSS_SERVER_DISTRUST_AFTER" then kind in ["CK_BBOOL", OCTAL]
    else true
  }

  /** ast.literal_eval of a value that is to be a string: None when it is malformed or not a string. */
  type Literals = string -> Option<string>

  function OneLine(eval: Literals, quoted: string): Option<string> {
    match eval(quoted)
    case Some(t) => if '\n' in t || '\r' in t then None else Some(t)
    case None => None
  }

  predicate IsNoise(line: string) { Strip(line) == "" || Strip(line)[0] == '#' }

  // ---- The parser ----

  datatype What =
    | Misplaced | BeforeBegin | UnexpectedEnd | Malformed | WrongKind | Duplicate | Trailing | BadUtf8 | BadOctal
    | MissingBegin | Unterminated

  /** A ConversionError: the line it names (0 for none) and what is wrong. */
  datatype Fault = Fault(line: nat, what: What)

  datatype State = State(objects: seq<Obj>, current: Obj, pending: Option<(string, nat)>, octal: seq<string>,
      begun: bool)

  const START := State([], map[], None, [], false)

  function WithAttr(s: State, name: string, value: Value): State {
    s.(current := s.current[name := value])
  }

  /** The object an attribute belongs to: CKA_CLASS starts a new one. */
  function Opened(s: State, name: string): State {
    if name == CLASS && s.current != map[] then s.(objects := s.objects + [s.current], current := map[]) else s
  }

  function TakeAttr(eval: Literals, s: State, n: nat, parts: seq<string>): Result<State, Fault> {
    if |parts| < 2 || !IsAttribute(parts[0]) then Err(Fault(n, Malformed))
    else
      var (name, kind) := (parts[0], parts[1]);
      var value := if |parts| == 3 then parts[2] else "";
      var o := Opened(s, name);
      if !KindFits(name, kind) then Err(Fault(n, WrongKind))
      else if name in o.current then Err(Fault(n, Duplicate))
      else if kind == OCTAL then
        (if value != "" then Err(Fault(n, Trailing)) else Ok(o.(pending := Some((name, n)))))
      else if value == "" then Err(Fault(n, Malformed))
      else if kind == "UTF8" then
        match OneLine(eval, value) case None => Err(Fault(n, BadUtf8)) case Some(t) => Ok(WithAttr(o, name, Str(t)))
      else Ok(WithAttr(o, name, Str(value)))
  }

  function TakeBlockLine(s: State, line: string): Result<State, Fault>
    requires s.pending.Some?
  {
    var (name, start) := s.pending.value;
    if Strip(line) != "END" then Ok(s.(octal := s.octal + [line]))
    else
      match Octal(Concat(s.octal))
      case None => Err(Fault(start, BadOctal))
      case Some(bs) =>
        if bs == [] then Err(Fault(start, BadOctal))
        else Ok(WithAttr(s, name, Bytes(bs)).(pending := None, octal := []))
  }

  function Take(eval: Literals, s: State, n: nat, line: string): Result<State, Fault> {
    if s.pending.Some? then TakeBlockLine(s, line)
    else if IsNoise(line) then Ok(s)
    else if Strip(line) == "BEGINDATA" then
      (if s.begun || s.current != map[] || s.objects != [] then Err(Fault(n, Misplaced)) else Ok(s.(begun := true)))
    else if !s.begun then Err(Fault(n, BeforeBegin))
    else if Strip(line) == "END" then Err(Fault(n, UnexpectedEnd))
    else TakeAttr(eval, s, n, Split(Strip(line)))
  }

  function Feed(eval: Literals, lines: seq<string>): Result<State, Fault> {
    if lines == [] then Ok(START)
    else
      match Feed(eval, lines[..|lines| - 1])
      case Err(e) => Err(e)
      case Ok(s) => Take(eval, s, |lines|, lines[|lines| - 1])
  }

  function AllObjects(s: State): seq<Obj> {
    if s.current == map[] then s.objects else s.objects + [s.current]
  }

  function Finish(s: State): Result<seq<Obj>, Fault> {
    if !s.begun then Err(Fault(0, MissingBegin))
    else if s.pending.Some? then Err(Fault(s.pending.value.1, Unterminated))
    else Ok(AllObjects(s))
  }

  function Parsed(eval: Literals, lines: seq<string>): Result<seq<Obj>, Fault> {
    match Feed(eval, lines) case Err(e) => Err(e) case Ok(s) => Finish(s)
  }

  /** parse_objects, of the text's lines. */
  method ParseObjects(eval: Literals, lines: seq<string>) returns (r: Result<seq<Obj>, Fault>)
    ensures r == Parsed(eval, lines)
  {
    hide Octal, Strip, Split, IsAttribute, KindFits, OneLine, IsNoise, Concat, Feed;
    var objects: seq<Obj>, current: Obj := [], map[];
    var pending: Option<(string, nat)>, octalLines: seq<string>, sawBegin := None, [], false;
    var i := 0;
    NothingFed(eval, lines[..0]);
    while i < |lines|
      invariant 0 <= i <= |lines|
      invariant Feed(eval, lines[..i]) == Ok(State(objects, current, pending, octalLines, sawBegin))
    {
      var line := lines[i];
      FeedMore(eval, lines, i);
      FirstErrorStays(eval, lines, i + 1);
      i := i + 1;
      if pending.Some? {
        var (name, start) := pending.value;
        if Strip(line) == "END" {
          var bs := Octal(Concat(octalLines));
          if bs.None? || bs.value == [] { return Err(Fault(start, BadOctal)); }
          current := current[name := Bytes(bs.value)];
          pending, octalLines := None, [];
        } else {
          octalLines := octalLines + [line];
        }
        continue;
      }
      if IsNoise(line) { continue; }
      var stripped := Strip(line);
      if stripped == "BEGINDATA" {
        if sawBegin || current != map[] || objects != [] { return Err(Fault(i, Misplaced)); }
        sawBegin := true;
        continue;
      }
      if !sawBegin { return Err(Fault(i, BeforeBegin)); }
      if stripped == "END" { return Err(Fault(i, UnexpectedEnd)); }
      var parts := Split(stripped);
      if |parts| < 2 || !IsAttribute(parts[0]) { return Err(Fault(i, Malformed)); }
      var name, kind := parts[0], parts[1];
      var value := if |parts| == 3 then parts[2] else "";
      if !KindFits(name, kind) { return Err(Fault(i, WrongKind)); }
      if name == CLASS && current != map[] { objects, current := objects + [current], map[]; }
      if name in current { return Err(Fault(i, Duplicate)); }
      if kind == OCTAL {
        if value != "" { return Err(Fault(i, Trailing)); }
        pending := Some((name, i));
      } else if kind == "UTF8" {
        if value == "" { return Err(Fault(i, Malformed)); }
        var text := OneLine(eval, value);
        if text.None? { return Err(Fault(i, BadUtf8)); }
        current := current[name := Str(text.value)];
      } else {
        if value == "" { return Err(Fault(i, Malformed)); }
        current := current[name := Str(value)];
      }
    }
    assert lines[..i] == lines;
    if !sawBegin { return Err(Fault(0, MissingBegin)); }
    if pending.Some? { return Err(Fault(pending.value.1, Unterminated)); }
    if current != map[] { objects := objects + [current]; }
    return Ok(objects);
  }

  lemma {:induction false} FeedMore(eval: Literals, lines: seq<string>, i: nat)
    requires i < |lines|
    ensures Feed(eval, lines[..i + 1]) ==
      match Feed(eval, lines[..i]) case Err(e) => Err(e) case Ok(s) => Take(eval, s, i + 1, lines[i])
  {
    assert lines[..i + 1][..i] == lines[..i];
  }

  lemma {:induction false} NothingFed(eval: Literals, none: seq<string>)
    requires none == []
    ensures Feed(eval, none) == Ok(START)
  {
  }

  lemma {:induction false} FirstErrorStays(eval: Literals, lines: seq<string>, i: nat)
    requires i <= |lines|
    ensures Feed(eval, lines[..i]).Err? ==> Feed(eval, lines) == Feed(eval, lines[..i])
    decreases |lines| - i
  {
    if i == |lines| {
      assert lines[..i] == lines;
    } else {
      FeedMore(eval, lines, i);
      FirstErrorStays(eval, lines, i + 1);
    }
  }

  // ---- Documents ----

  /** What a well-formed file is made of, line by line: the lines themselves, and what they say. */
  datatype Piece =
    | Noise(line: string)
    | Begin(line: string)
    | Line(line: string, name: string, kind: string, value: string)
    | Quoted(line: string, name: string, quoted: string, text: string)
    | Block(line: string, name: string, body: seq<string>, end: string, bytes: seq<byte>)

  predicate PieceOk(eval: Literals, p: Piece) {
    match p
    case Noise(line) => IsNoise(line)
    case Begin(line) => Strip(line) == "BEGINDATA"
    case Line(line, name, kind, value) =>
      Split(Strip(line)) == [name, kind, value] && IsAttribute(name) && KindFits(name, kind) && value != "" &&
      kind !in [OCTAL, "UTF8"]
    case Quoted(line, name, quoted, text) =>
      Split(Strip(line)) == [name, "UTF8", quoted] && IsAttribute(name) && KindFits(name, "UTF8") && quoted != "" &&
      OneLine(eval, quoted) == Some(text)
    case Block(line, name, body, end, bytes) =>
      Split(Strip(line)) == [name, OCTAL] && IsAttribute(name) && KindFits(name, OCTAL) &&
      bytes != [] && Concat(body) == OctalOf(bytes) && Strip(end) == "END"
  }

  predicate PiecesOk(eval: Literals, doc: seq<Piece>) { forall i :: 0 <= i < |doc| ==> PieceOk(eval, doc[i]) }

  function PieceLines(p: Piece): seq<string> {
    if p.Block? then [p.line] + p.body + [p.end] else [p.line]
  }

  function Lines(doc: seq<Piece>): seq<string> {
    if doc == [] then [] else Lines(doc[..|doc| - 1]) + PieceLines(doc[|doc| - 1])
  }

  function PieceAttrs(p: Piece): seq<Attr> {
    match p
    case Line(_, name, _, value) => [Attr(name, Str(value))]
    case Quoted(_, name, _, text) => [Attr(name, Str(text))]
    case Block(_, name, _, _, bytes) => [Attr(name, Bytes(bytes))]
    case _ => []
  }

  function Attrs(doc: seq<Piece>): seq<Attr> {
    if doc == [] then [] else Attrs(doc[..|doc| - 1]) + PieceAttrs(doc[|doc| - 1])
  }

  /** BEGINDATA stands once, and no attribute before it. */
  predicate WellBegun(doc: seq<Piece>) {
    exists b :: 0 <= b < |doc| && BeginsAt(doc, b)
  }

  predicate BeginsAt(doc: seq<Piece>, b: nat) {
    b < |doc| && doc[b].Begin? && (forall i :: 0 <= i < b ==> doc[i].Noise?) &&
    forall i :: b < i < |doc| ==> !doc[i].Begin?
  }

  /** The attributes of one object: distinct names, CKA_CLASS only first. */
  predicate GroupOk(g: seq<Attr>) {
    g != [] && (forall i, j :: 0 <= i < j < |g| ==> g[i].name != g[j].name) &&
    forall i :: 0 < i < |g| ==> g[i].name != CLASS
  }

  /** Every object but the first starts with its CKA_CLASS. */
  predicate GroupsOk(gs: seq<seq<Attr>>) {
    (forall k :: 0 <= k < |gs| ==> GroupOk(gs[k])) && forall k :: 0 < k < |gs| ==> gs[k] != [] && gs[k][0].name == CLASS
  }

  function Flat(gs: seq<seq<Attr>>): seq<Attr> {
    if gs == [] then [] else Flat(gs[..|gs| - 1]) + gs[|gs| - 1]
  }

  function ObjectOf(g: seq<Attr>): Obj {
    if g == [] then map[] else ObjectOf(g[..|g| - 1])[g[|g| - 1].name := g[|g| - 1].value]
  }

  function ObjectsOf(gs: seq<seq<Attr>>): seq<Obj> {
    if gs == [] then [] else ObjectsOf(gs[..|gs| - 1]) + [ObjectOf(gs[|gs| - 1])]
  }

  /** The file says exactly these objects. */
  ghost predicate Says(eval: Literals, lines: seq<string>, doc: seq<Piece>, gs: seq<seq<Attr>>) {
    PiecesOk(eval, doc) && WellBegun(doc) && Lines(doc) == lines && GroupsOk(gs) && Flat(gs) == Attrs(doc)
  }

  // ---- Lines and pieces ----

  function AddAttr(s: State, a: Attr): Option<State> {
    var o := Opened(s, a.name);
    if a.name in o.current then None else Some(WithAttr(o, a.name, a.value))
  }

  function Apply(s: State, p: Piece): Option<State> {
    match p
    case Noise(_) => Some(s)
    case Begin(_) => if s.begun then None else Some(s.(begun := true))
    case _ => if s.begun then AddAttr(s, PieceAttrs(p)[0]) else None
  }

  function StateOf(doc: seq<Piece>): Option<State> {
    if doc == [] then Some(START)
    else
      match StateOf(doc[..|doc| - 1])
      case None => None
      case Some(s) => Apply(s, doc[|doc| - 1])
  }

  function FeedFrom(eval: Literals, s: State, n: nat, lines: seq<string>): Result<State, Fault> {
    if lines == [] then Ok(s)
    else
      match FeedFrom(eval, s, n, lines[..|lines| - 1])
      case Err(e) => Err(e)
      case Ok(s') => Take(eval, s', n + |lines|, lines[|lines| - 1])
  }

  lemma {:induction false} FeedJoin(eval: Literals, a: seq<string>, b: seq<string>)
    ensures Feed(eval, a + b) ==
      match Feed(eval, a) case Err(e) => Err(e) case Ok(s) => FeedFrom(eval, s, |a|, b)
    decreases |b|
  {
    hide Take;
    if b == [] {
      assert a + b == a;
    } else {
      var l := |b| - 1;
      FeedJoin(eval, a, b[..l]);
      assert (a + b)[..|a + b| - 1] == a + b[..l];
    }
  }

  /** Between attributes nothing is pending, and objects are closed only by the next one's class. */
  predicate Resting(s: State) {
    s.pending == None && s.octal == [] && (s.current == map[] ==> s.objects == []) &&
    (!s.begun ==> s.current == map[])
  }

  lemma {:induction false} HeaderIsNoMark(line: string)
    requires |Split(Strip(line))| >= 2 && IsAttribute(Split(Strip(line))[0])
    ensures !IsNoise(line) && Strip(line) != "BEGINDATA" && Strip(line) != "END"
  {
    var s := Strip(line);
    var first := Word(s);
    assert first[..4] == "CKA_";
    assert s[0] == first[0] == 'C' && s[1] == first[1] == 'K';
  }

  lemma {:induction false} BodyFed(eval: Literals, s: State, n: nat, header: string, body: seq<string>, o: State)
    requires Take(eval, s, n + 1, header) == Ok(o) && o.pending.Some? && o.octal == []
    requires forall i :: 0 <= i < |body| ==> Strip(body[i]) != "END"
    ensures FeedFrom(eval, s, n, [header] + body) == Ok(o.(octal := body))
    decreases |body|
  {
    hide Strip, TakeAttr, IsNoise, Octal, Concat;
    var lines := [header] + body;
    assert lines[..|lines| - 1] == if body == [] then [] else [header] + body[..|body| - 1];
    if body != [] {
      var k := |body| - 1;
      BodyFed(eval, s, n, header, body[..k], o);
      assert body == body[..k] + [body[k]];
    } else {
      assert FeedFrom(eval, s, n, []) == Ok(s);
    }
  }

  /** A blank line, a comment or BEGINDATA does to the parser what it says. */
  lemma {:induction false} MarkFed(eval: Literals, s: State, n: nat, p: Piece)
    requires Resting(s) && PieceOk(eval, p) && (p.Noise? || p.Begin?) && Apply(s, p).Some?
    ensures Take(eval, s, n, p.line) == Ok(Apply(s, p).value) && Resting(Apply(s, p).value)
  {
    hide Strip, IsNoise, TakeAttr;
    BeginIsNoNoise(p.line);
  }

  /** So does an attribute on one line. */
  lemma {:induction false} AttrFed(eval: Literals, s: State, n: nat, p: Piece)
    requires Resting(s) && PieceOk(eval, p) && (p.Line? || p.Quoted?) && Apply(s, p).Some?
    ensures Take(eval, s, n, p.line) == Ok(Apply(s, p).value) && Resting(Apply(s, p).value)
  {
    hide Octal, Strip, Split, IsAttribute, OneLine, IsNoise, Concat, OctalOf;
    HeaderIsNoMark(p.line);
  }

  /** So do the lines of a block, broken anywhere. */
  lemma {:induction false} BlockFed(eval: Literals, s: State, n: nat, p: Piece)
    requires Resting(s) && PieceOk(eval, p) && p.Block? && Apply(s, p).Some?
    ensures FeedFrom(eval, s, n, PieceLines(p)) == Ok(Apply(s, p).value) && Resting(Apply(s, p).value)
  {
    hide Octal, Strip, Split, IsAttribute, OneLine, IsNoise, Concat, OctalOf;
    HeaderIsNoMark(p.line);
    var o := s.(pending := Some((p.name, n + 1)));
    assert Take(eval, s, n + 1, p.line) == Ok(o);
    OctalHasNoEnd(p.body, p.bytes);
    BodyFed(eval, s, n, p.line, p.body, o);
    OctalExactly(Concat(p.body), p.bytes);
    var lines := [p.line] + p.body;
    assert (lines + [p.end])[..|lines + [p.end]| - 1] == lines;
  }

  lemma {:induction false} OneFed(eval: Literals, s: State, n: nat, line: string)
    ensures FeedFrom(eval, s, n, [line]) == Take(eval, s, n + 1, line)
  {
    hide Take;
    assert [line][..0] == [];
  }

  lemma {:induction false} BeginIsNoNoise(line: string)
    ensures Strip(line) == "BEGINDATA" ==> !IsNoise(line)
  {
  }

  lemma {:induction false} DocFed(eval: Literals, doc: seq<Piece>)
    requires PiecesOk(eval, doc) && StateOf(doc).Some?
    ensures Feed(eval, Lines(doc)) == Ok(StateOf(doc).value) && Resting(StateOf(doc).value)
    decreases |doc|
  {
    hide PieceOk, Apply, Take;
    if doc != [] {
      var k := |doc| - 1;
      var p, n := doc[k], |Lines(doc[..k])|;
      DocFed(eval, doc[..k]);
      var s := StateOf(doc[..k]).value;
      OneFed(eval, s, n, p.line);
      match p {
        case Block(_, _, _, _, _) => BlockFed(eval, s, n, p);
        case Noise(_) => MarkFed(eval, s, n + 1, p);
        case Begin(_) => MarkFed(eval, s, n + 1, p);
        case _ => AttrFed(eval, s, n + 1, p);
      }
      FeedJoin(eval, Lines(doc[..k]), PieceLines(p));
    }
  }

  /** The parser is inside the block that this header opened after these pieces. */
  predicate InBlock(eval: Literals, s: State, doc: seq<Piece>, header: string) {
    s.pending.Some? && PiecesOk(eval, doc) && StateOf(doc) == Some(s.(pending := None, octal := [])) && s.begun &&
    Split(Strip(header)) == [s.pending.value.0, OCTAL] && IsAttribute(s.pending.value.0) &&
    KindFits(s.pending.value.0, OCTAL) && s.pending.value.0 !in s.current &&
    forall i :: 0 <= i < |s.octal| ==> Strip(s.octal[i]) != "END"
  }

  lemma {:induction false} Snoc(eval: Literals, doc: seq<Piece>, p: Piece)
    requires PiecesOk(eval, doc) && PieceOk(eval, p)
    ensures PiecesOk(eval, doc + [p]) && Lines(doc + [p]) == Lines(doc) + PieceLines(p)
    ensures StateOf(doc + [p]) == match StateOf(doc) case None => None case Some(s) => Apply(s, p)
  {
    hide PieceOk, Apply;
    assert (doc + [p])[..|doc|] == doc;
  }

  /** The piece that one line is, when it opens no block. */
  function PieceOf(eval: Literals, line: string): Piece {
    if IsNoise(line) then Noise(line)
    else if Strip(line) == "BEGINDATA" then Begin(line)
    else
      var parts := Split(Strip(line));
      if |parts| != 3 then Noise(line)
      else if parts[1] == "UTF8" && OneLine(eval, parts[2]).Some? then
        Quoted(line, parts[0], parts[2], OneLine(eval, parts[2]).value)
      else Line(line, parts[0], parts[1], parts[2])
  }

  lemma {:induction false} LineIsPiece(eval: Literals, s: State, n: nat, line: string)
    requires Resting(s) && Take(eval, s, n, line).Ok? && Take(eval, s, n, line).value.pending == None
    ensures var p := PieceOf(eval, line);
      PieceOk(eval, p) && PieceLines(p) == [line] && Apply(s, p) == Some(Take(eval, s, n, line).value)
  {
    hide Strip, Split, IsAttribute, OneLine, IsNoise;
    var parts := Split(Strip(line));
    if !IsNoise(line) && Strip(line) != "BEGINDATA" {
      assert |parts| == 3 ==> parts == [parts[0], parts[1], parts[2]];
    }
  }

  lemma {:induction false} LineOpensBlock(eval: Literals, s: State, n: nat, line: string, doc: seq<Piece>)
    requires Resting(s) && Take(eval, s, n, line).Ok? && Take(eval, s, n, line).value.pending.Some?
    requires PiecesOk(eval, doc) && StateOf(doc) == Some(s)
    ensures InBlock(eval, Take(eval, s, n, line).value, doc, line) && Take(eval, s, n, line).value.octal == []
  {
    hide Strip, Split, IsAttribute, OneLine, IsNoise, PiecesOk, StateOf;
    var parts := Split(Strip(line));
    assert |parts| == 2;
    assert parts == [parts[0], parts[1]];
  }

  lemma {:induction false} BlockCloses(eval: Literals, s: State, n: nat, line: string, doc: seq<Piece>, header: string)
    returns (p: Piece)
    requires InBlock(eval, s, doc, header) && Take(eval, s, n, line).Ok? && Strip(line) == "END"
    ensures PieceOk(eval, p) && PieceLines(p) == [header] + s.octal + [line]
    ensures Apply(s.(pending := None, octal := []), p) == Some(Take(eval, s, n, line).value)
  {
    hide Strip, Split, IsAttribute, Octal, Concat, OctalOf, PiecesOk, StateOf;
    var bs := Octal(Concat(s.octal)).value;
    OctalExactly(Concat(s.octal), bs);
    p := Block(header, s.pending.value.0, s.octal, line, bs);
  }

  /** The lines so far are these pieces, and perhaps the start of a block. */
  predicate Explains(eval: Literals, lines: seq<string>, s: State, doc: seq<Piece>, header: string) {
    if s.pending.Some? then InBlock(eval, s, doc, header) && lines == Lines(doc) + [header] + s.octal
    else PiecesOk(eval, doc) && StateOf(doc) == Some(s) && lines == Lines(doc)
  }

  lemma {:induction false} ExplainsInside(eval: Literals, lines: seq<string>, s: State, n: nat, line: string,
      doc: seq<Piece>, header: string) returns (doc': seq<Piece>)
    requires Explains(eval, lines, s, doc, header) && s.pending.Some? && Take(eval, s, n, line).Ok?
    ensures Explains(eval, lines + [line], Take(eval, s, n, line).value, doc', header)
  {
    hide Take, PieceOk, Apply, Strip, PiecesOk, StateOf, Lines, InBlock;
    if Strip(line) == "END" {
      InsideOf(eval, s, doc, header);
      var p := BlockCloses(eval, s, n, line, doc, header);
      Snoc(eval, doc, p);
      Closed(eval, s, n, line);
      assert lines + [line] == Lines(doc) + ([header] + s.octal + [line]);
      doc' := doc + [p];
    } else {
      StaysInBlock(eval, s, n, line, doc, header);
      assert lines + [line] == Lines(doc) + [header] + (s.octal + [line]);
      doc' := doc;
    }
  }

  lemma {:induction false} InsideOf(eval: Literals, s: State, doc: seq<Piece>, header: string)
    requires InBlock(eval, s, doc, header)
    ensures StateOf(doc) == Some(s.(pending := None, octal := [])) && PiecesOk(eval, doc)
  {
    hide Strip, Split, IsAttribute, PiecesOk, StateOf;
  }

  lemma {:induction false} ExplainsOutside(eval: Literals, lines: seq<string>, s: State, n: nat, line: string,
      doc: seq<Piece>, header: string) returns (doc': seq<Piece>, header': string)
    requires Explains(eval, lines, s, doc, header) && s.pending.None? && Take(eval, s, n, line).Ok?
    ensures Explains(eval, lines + [line], Take(eval, s, n, line).value, doc', header')
  {
    hide Take, PieceOk, Apply, Strip, PiecesOk, StateOf, Lines, InBlock, Resting;
    DocFed(eval, doc);
    if Take(eval, s, n, line).value.pending.Some? {
      LineOpensBlock(eval, s, n, line, doc);
      doc', header' := doc, line;
      assert lines + [line] == Lines(doc) + [line] + [];
    } else {
      LineIsPiece(eval, s, n, line);
      Snoc(eval, doc, PieceOf(eval, line));
      doc', header' := doc + [PieceOf(eval, line)], header;
    }
  }

  /** Whatever the parser gets through is made of well-formed pieces. */
  lemma {:induction false} FedIsDoc(eval: Literals, lines: seq<string>) returns (doc: seq<Piece>, header: string)
    requires Feed(eval, lines).Ok?
    ensures Explains(eval, lines, Feed(eval, lines).value, doc, header)
    decreases |lines|
  {
    doc, header := [], "";
    if lines != [] {
      hide Take, Explains;
      var n := |lines| - 1;
      var s := Feed(eval, lines[..n]).value;
      assert lines == lines[..n] + [lines[n]];
      doc, header := FedIsDoc(eval, lines[..n]);
      if s.pending.Some? {
        doc := ExplainsInside(eval, lines[..n], s, |lines|, lines[n], doc, header);
      } else {
        doc, header := ExplainsOutside(eval, lines[..n], s, |lines|, lines[n], doc, header);
      }
    }
  }

  lemma {:induction false} Closed(eval: Literals, s: State, n: nat, line: string)
    requires s.pending.Some? && Strip(line) == "END" && Take(eval, s, n, line).Ok?
    ensures Take(eval, s, n, line).value.pending == None
  {
    hide Octal, Concat;
  }

  lemma {:induction false} StaysInBlock(eval: Literals, s: State, n: nat, line: string, doc: seq<Piece>, header: string)
    requires InBlock(eval, s, doc, header) && Strip(line) != "END"
    ensures Take(eval, s, n, line) == Ok(s.(octal := s.octal + [line]))
    ensures InBlock(eval, s.(octal := s.octal + [line]), doc, header)
  {
    hide Strip, Split, IsAttribute, PiecesOk, StateOf;
  }

  // ---- Pieces and objects ----

  lemma {:induction false} NamesOf(g: seq<Attr>, name: string)
    ensures name in ObjectOf(g) <==> exists i :: 0 <= i < |g| && g[i].name == name
    ensures ObjectOf(g) == map[] <==> g == []
    decreases |g|
  {
    if g != [] {
      var k := |g| - 1;
      NamesOf(g[..k], name);
      assert g[k].name in ObjectOf(g);
      if i :| 0 <= i < |g| && g[i].name == name { assert i < k ==> g[..k][i].name == name; }
    }
  }

  /** The groups with one more attribute. */
  function NextGroups(gs: seq<seq<Attr>>, a: Attr): seq<seq<Attr>> {
    if gs == [] || a.name == CLASS then gs + [[a]]
    else gs[..|gs| - 1] + [gs[|gs| - 1] + [a]]
  }

  predicate Represents(s: State, gs: seq<seq<Attr>>) {
    GroupsOk(gs) &&
    if gs == [] then s.current == map[] && s.objects == []
    else s.current == ObjectOf(gs[|gs| - 1]) && s.objects == ObjectsOf(gs[..|gs| - 1])
  }

  lemma {:induction false} LongerGroup(g: seq<Attr>, a: Attr)
    requires GroupOk(g) && a.name != CLASS
    ensures GroupOk(g + [a]) <==> a.name !in ObjectOf(g)
    ensures ObjectOf(g + [a]) == ObjectOf(g)[a.name := a.value]
  {
    var h := g + [a];
    assert h[..|g|] == g;
    NamesOf(g, a.name);
    if GroupOk(h) {
      assert forall i :: 0 <= i < |g| ==> h[i].name != h[|g|].name;
      assert forall i :: 0 <= i < |g| ==> g[i] == h[i];
    }
  }

  /** A class attribute, or the first of all, opens a group. */
  lemma {:induction false} OpensGroup(s: State, gs: seq<seq<Attr>>, a: Attr)
    requires Represents(s, gs) && (gs == [] || a.name == CLASS)
    ensures GroupsOk(NextGroups(gs, a))
    ensures AddAttr(s, a).Some? && Represents(AddAttr(s, a).value, NextGroups(gs, a))
  {
    hide GroupOk;
    Alone(a);
    assert NextGroups(gs, a)[..|gs|] == gs;
    if gs != [] {
      Nonempty(gs[|gs| - 1]);
      assert gs == gs[..|gs| - 1] + [gs[|gs| - 1]];
    }
  }

  /** Any other attribute can be added to the last group exactly when the groups stay well formed. */
  lemma {:induction false} ExtendsGroup(s: State, gs: seq<seq<Attr>>, a: Attr)
    requires Represents(s, gs) && gs != [] && a.name != CLASS
    ensures AddAttr(s, a).Some? <==> GroupsOk(NextGroups(gs, a))
    ensures AddAttr(s, a).Some? ==> Represents(AddAttr(s, a).value, NextGroups(gs, a))
  {
    hide GroupOk;
    var next := NextGroups(gs, a);
    var k := |gs| - 1;
    LongerGroup(gs[k], a);
    Nonempty(gs[k]);
    assert next[..k] == gs[..k] && next[k] == gs[k] + [a];
    assert GroupsOk(next) <==> GroupOk(next[k]) by {
      assert forall i :: 0 <= i < k ==> next[i] == gs[i];
      assert gs[k] != [] && next[k][0] == gs[k][0];
    }
  }

  lemma {:induction false} Alone(a: Attr)
    ensures GroupOk([a]) && ObjectOf([a]) == map[a.name := a.value]
  {
    assert [a][..0] == [];
  }

  lemma {:induction false} Nonempty(g: seq<Attr>)
    requires GroupOk(g)
    ensures g != [] && ObjectOf(g) != map[]
  {
    NamesOf(g, CLASS);
  }

  lemma {:induction false} NextFlat(gs: seq<seq<Attr>>, a: Attr)
    ensures Flat(NextGroups(gs, a)) == Flat(gs) + [a]
  {
    var next := NextGroups(gs, a);
    if gs == [] || a.name == CLASS {
      assert next[..|gs|] == gs;
    } else {
      var k := |gs| - 1;
      assert next[..k] == gs[..k];
      assert Flat(gs[..k]) + (gs[k] + [a]) == Flat(gs[..k]) + gs[k] + [a];
    }
  }

  /** Groups without their last attribute. */
  function Before(gs: seq<seq<Attr>>): seq<seq<Attr>>
    requires gs != [] && gs[|gs| - 1] != []
  {
    var k := |gs| - 1;
    if |gs[k]| == 1 then gs[..k] else gs[..k] + [gs[k][..|gs[k]| - 1]]
  }

  lemma {:induction false} LastAdded(gs: seq<seq<Attr>>, attrs: seq<Attr>, a: Attr)
    requires GroupsOk(gs) && Flat(gs) == attrs + [a]
    ensures gs != [] && gs[|gs| - 1] != [] && GroupsOk(Before(gs))
    ensures NextGroups(Before(gs), a) == gs && Flat(Before(gs)) == attrs
  {
    var k := |gs| - 1;
    var g := gs[k];
    assert g != [] && g[|g| - 1] == a by { assert Flat(gs)[|attrs|] == a; }
    var before := Before(gs);
    assert forall i :: 0 <= i < k ==> before[i] == gs[i];
    if |g| == 1 {
      assert g == [a];
      assert gs == gs[..k] + [g];
    } else {
      assert GroupOk(g[..|g| - 1]);
      assert g == g[..|g| - 1] + [a];
      assert before[..k] == gs[..k];
      assert GroupsOk(before);
      assert a.name != CLASS;
    }
    NextFlat(before, a);
    assert Flat(before) == (attrs + [a])[..|attrs|];
  }

  predicate AllNoise(doc: seq<Piece>) { forall i :: 0 <= i < |doc| ==> doc[i].Noise? }

  lemma {:induction false} NoiseOnly(doc: seq<Piece>)
    requires AllNoise(doc)
    ensures StateOf(doc) == Some(START) && Attrs(doc) == []
    decreases |doc|
  {
    if doc != [] { NoiseOnly(doc[..|doc| - 1]); }
  }

  lemma {:induction false} BegunEarlier(doc: seq<Piece>, p: Piece)
    ensures WellBegun(doc + [p]) <==> if p.Begin? then AllNoise(doc) else WellBegun(doc)
    ensures AllNoise(doc + [p]) <==> AllNoise(doc) && p.Noise?
  {
    var all := doc + [p];
    assert forall i :: 0 <= i < |doc| ==> all[i] == doc[i];
    if p.Begin? && AllNoise(doc) { assert BeginsAt(all, |doc|); }
    if WellBegun(all) {
      var b :| 0 <= b < |all| && BeginsAt(all, b);
      assert p.Begin? ==> b == |doc|;
      if b < |doc| { assert BeginsAt(doc, b); }
    }
    if !p.Begin? && WellBegun(doc) {
      var b :| 0 <= b < |doc| && BeginsAt(doc, b);
      assert BeginsAt(all, b);
    }
  }

  /** The pieces are taken exactly when their attributes fall into well-formed groups, and then the objects are those
      of the groups. */
  lemma {:induction false} StateIsGroups(doc: seq<Piece>) returns (gs: seq<seq<Attr>>)
    requires StateOf(doc).Some?
    ensures Represents(StateOf(doc).value, gs) && Flat(gs) == Attrs(doc)
    ensures StateOf(doc).value.pending == None
    ensures if StateOf(doc).value.begun then WellBegun(doc) else AllNoise(doc)
    decreases |doc|
  {
    hide AddAttr, NextGroups, Represents, Flat, WellBegun, AllNoise;
    if doc == [] {
      gs := [];
      NoGroups();
    } else {
      var k := |doc| - 1;
      var s, p := StateOf(doc[..k]).value, doc[k];
      gs := StateIsGroups(doc[..k]);
      assert doc == doc[..k] + [p];
      BegunEarlier(doc[..k], p);
      match p {
        case Noise(_) =>
        case Begin(_) => BegunMore(s, gs);
        case _ =>
          var a := PieceAttrs(p)[0];
          if gs == [] || a.name == CLASS { OpensGroup(s, gs, a); } else { ExtendsGroup(s, gs, a); }
          NextFlat(gs, a);
          SamePending(s, a);
          gs := NextGroups(gs, a);
      }
    }
  }

  lemma {:induction false} NoGroups()
    ensures Represents(START, []) && Flat([]) == [] && AllNoise([])
  {
  }

  lemma {:induction false} BegunMore(s: State, gs: seq<seq<Attr>>)
    requires Represents(s, gs)
    ensures Represents(s.(begun := true), gs)
  {
    hide GroupsOk;
  }

  lemma {:induction false} SamePending(s: State, a: Attr)
    requires AddAttr(s, a).Some?
    ensures AddAttr(s, a).value.pending == s.pending && AddAttr(s, a).value.begun == s.begun
  {
  }

  lemma {:induction false} StateGrows(s: State, before: seq<seq<Attr>>, a: Attr)
    requires Represents(s, before) && GroupsOk(NextGroups(before, a))
    ensures AddAttr(s, a).Some? && Represents(AddAttr(s, a).value, NextGroups(before, a))
    ensures AddAttr(s, a).value.pending == s.pending && AddAttr(s, a).value.begun == s.begun
  {
    hide AddAttr, NextGroups, Represents, GroupsOk;
    if before == [] || a.name == CLASS { OpensGroup(s, before, a); } else { ExtendsGroup(s, before, a); }
    SamePending(s, a);
  }

  lemma {:induction false} GroupsAreState(doc: seq<Piece>, gs: seq<seq<Attr>>)
    requires WellBegun(doc) && GroupsOk(gs) && Flat(gs) == Attrs(doc)
    ensures StateOf(doc).Some? && Represents(StateOf(doc).value, gs)
    ensures StateOf(doc).value.begun && StateOf(doc).value.pending == None
    decreases |doc|
  {
    hide AddAttr, NextGroups, Represents, Flat, WellBegun, AllNoise, GroupsOk;
    NotNothing(doc);
    var k := |doc| - 1;
    var p := doc[k];
    assert doc == doc[..k] + [p];
    BegunEarlier(doc[..k], p);
    match p {
      case Noise(_) => GroupsAreState(doc[..k], gs);
      case Begin(_) =>
        NoiseOnly(doc[..k]);
        NoAttrs(gs);
        NoGroups();
        BegunMore(START, []);
      case _ =>
        var a := PieceAttrs(p)[0];
        LastAdded(gs, Attrs(doc[..k]), a);
        var before := Before(gs);
        GroupsAreState(doc[..k], before);
        StateGrows(StateOf(doc[..k]).value, before, a);
    }
  }

  lemma {:induction false} NotNothing(doc: seq<Piece>)
    ensures WellBegun(doc) ==> doc != []
  {
  }

  lemma {:induction false} NoAttrs(gs: seq<seq<Attr>>)
    requires GroupsOk(gs) && Flat(gs) == []
    ensures gs == []
  {
  }

  lemma {:induction false} ObjectsAreGroups(s: State, gs: seq<seq<Attr>>)
    requires Represents(s, gs)
    ensures AllObjects(s) == ObjectsOf(gs)
  {
    if gs != [] { Nonempty(gs[|gs| - 1]); }
  }

  /** The parser accepts a text exactly when it is pieces, lines anyhow, that say well-formed objects, and gives those
      objects. */
  lemma {:induction false} ParsesWhatIsSaid(eval: Literals, lines: seq<string>, objects: seq<Obj>)
    ensures Parsed(eval, lines) == Ok(objects) <==>
      exists doc, gs :: Says(eval, lines, doc, gs) && ObjectsOf(gs) == objects
  {
    hide Represents, WellBegun, PiecesOk, Feed, StateOf, Flat, GroupsOk, AllObjects, ObjectsOf;
    if Parsed(eval, lines) == Ok(objects) {
      var doc, header := FedIsDoc(eval, lines);
      var gs := StateIsGroups(doc);
      GroupsAreOk(StateOf(doc).value, gs);
      ObjectsAreGroups(StateOf(doc).value, gs);
      assert Says(eval, lines, doc, gs) && ObjectsOf(gs) == objects;
    }
    if doc, gs :| Says(eval, lines, doc, gs) && ObjectsOf(gs) == objects {
      Parses(eval, lines, doc, gs);
    }
  }

  lemma {:induction false} GroupsAreOk(s: State, gs: seq<seq<Attr>>)
    requires Represents(s, gs)
    ensures GroupsOk(gs)
  {
  }

  lemma {:induction false} Parses(eval: Literals, lines: seq<string>, doc: seq<Piece>, gs: seq<seq<Attr>>)
    requires Says(eval, lines, doc, gs)
    ensures Parsed(eval, lines) == Ok(ObjectsOf(gs))
  {
    hide Represents, WellBegun, PiecesOk, Feed, StateOf, Flat, GroupsOk, AllObjects, ObjectsOf;
    GroupsAreState(doc, gs);
    DocFed(eval, doc);
    ObjectsAreGroups(StateOf(doc).value, gs);
  }
}

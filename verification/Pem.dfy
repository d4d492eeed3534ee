/** The PEM bundle of the trusted roots (certdata-to-pem.py), and reading it back. */
module Pem {
  import opened Prelude
  import CertData
  import opened RootStore

  // ---- Base64, section 4 of RFC 4648 ----

  const PAD := '='

  function Letter(n: nat): (c: char)
    requires n < 64
    ensures c != PAD && c != '\n' && c != '-'
  {
    if n < 26 then ('A' as int + n) as char
    else if n < 52 then ('a' as int + n - 26) as char
    else if n < 62 then ('0' as int + n - 52) as char
    else if n == 62 then '+'
    else '/'
  }

  function Sextet(c: char): (r: Option<nat>)
    ensures r.Some? ==> r.value < 64
  {
    if 'A' <= c <= 'Z' then Some(c as int - 'A' as int)
    else if 'a' <= c <= 'z' then Some(c as int - 'a' as int + 26)
    else if '0' <= c <= '9' then Some(c as int - '0' as int + 52)
    else if c == '+' then Some(62)
    else if c == '/' then Some(63)
    else None
  }

  /** base64.b64encode. */
  function Encode(bs: seq<byte>): string {
    if bs == [] then ""
    else
      var a: int := bs[0];
      var b: int := if |bs| > 1 then bs[1] else 0;
      var c: int := if |bs| > 2 then bs[2] else 0;
      var head := [Letter(a / 4), Letter(a % 4 * 16 + b / 16)];
      if |bs| == 1 then head + [PAD, PAD]
      else if |bs| == 2 then head + [Letter(b % 16 * 4), PAD]
      else head + [Letter(b % 16 * 4 + c / 64), Letter(c % 64)] + Encode(bs[3..])
  }

  /** Strict decoding: padding only at the end, no stray bits, nothing outside the alphabet. */
  function Decode(s: string): Option<seq<byte>> {
    if s == "" then Some([])
    else if |s| < 4 then None
    else
      match (Sextet(s[0]), Sextet(s[1]))
      case (Some(w), Some(x)) =>
        if s[2..] == [PAD, PAD] then (if x % 16 == 0 then Some([w * 4 + x / 16]) else None)
        else
          (match Sextet(s[2])
           case None => None
           case Some(y) =>
             if s[3..] == [PAD] then (if y % 4 == 0 then Some([w * 4 + x / 16, x % 16 * 16 + y / 4]) else None)
             else
               match (Sextet(s[3]), Decode(s[4..]))
               case (Some(z), Some(rest)) => Some([w * 4 + x / 16, x % 16 * 16 + y / 4, y % 4 * 64 + z] + rest)
               case _ => None)
      case _ => None
  }

  lemma {:induction false} LetterReads(n: nat)
    requires n < 64
    ensures Sextet(Letter(n)) == Some(n)
  {
  }

  lemma {:induction false} Bits(a: int, b: int, c: int)
    requires 0 <= a < 256 && 0 <= b < 256 && 0 <= c < 256
    ensures a / 4 < 64 && a % 4 * 16 + b / 16 < 64 && b % 16 * 4 + c / 64 < 64
    ensures a / 4 * 4 + (a % 4 * 16 + b / 16) / 16 == a
    ensures (a % 4 * 16 + b / 16) % 16 * 16 + (b % 16 * 4 + c / 64) / 4 == b
    ensures (b % 16 * 4 + c / 64) % 4 * 64 + c % 64 == c
    ensures b == 0 ==> (a % 4 * 16 + b / 16) % 16 == 0
    ensures c == 0 ==> (b % 16 * 4 + c / 64) % 4 == 0
  {
    var q, r := a / 4, b / 16;
    var t := c / 64;
    assert (a % 4 * 16 + r) / 16 == a % 4 && (a % 4 * 16 + r) % 16 == r;
    assert (b % 16 * 4 + t) / 4 == b % 16 && (b % 16 * 4 + t) % 4 == t;
  }

  /** A group of four letters, and what follows it. */
  lemma {:induction false} ThreeDecode(a: byte, b: byte, c: byte, rest: string)
    ensures var (p, q, r) := (a as int, b as int, c as int);
      Decode([Letter(p / 4), Letter(p % 4 * 16 + q / 16), Letter(q % 16 * 4 + r / 64), Letter(r % 64)] + rest) ==
        match Decode(rest) case None => None case Some(bs) => Some([a, b, c] + bs)
  {
    hide Letter, Sextet;
    Bits(a, b, c);
    var (p, q, r) := (a as int, b as int, c as int);
    var (w, x, y, z) := (p / 4, p % 4 * 16 + q / 16, q % 16 * 4 + r / 64, r % 64);
    LetterReads(w);
    LetterReads(x);
    LetterReads(y);
    LetterReads(z);
    var s := [Letter(w), Letter(x), Letter(y), Letter(z)] + rest;
    assert s[2..][0] == Letter(y) && s[3..][0] == Letter(z) && s[4..] == rest;
    assert s[2..] != [PAD, PAD] && s[3..] != [PAD];
  }

  lemma {:induction false} TwoDecode(a: byte, b: byte)
    ensures Decode(Encode([a, b])) == Some([a, b])
  {
    hide Letter, Sextet;
    Bits(a, b, 0);
    var (p, q) := (a as int, b as int);
    LetterReads(p / 4);
    LetterReads(p % 4 * 16 + q / 16);
    LetterReads(q % 16 * 4);
    var s := Encode([a, b]);
    assert s == [Letter(p / 4), Letter(p % 4 * 16 + q / 16), Letter(q % 16 * 4), PAD];
    assert s[2..][0] != PAD && s[3..] == [PAD];
  }

  lemma {:induction false} OneDecodes(a: byte)
    ensures Decode(Encode([a])) == Some([a])
  {
    hide Letter, Sextet;
    Bits(a, 0, 0);
    LetterReads((a as int) / 4);
    LetterReads((a as int) % 4 * 16);
    assert Encode([a])[2..] == [PAD, PAD];
  }

  lemma {:induction false} DecodesEncoded(bs: seq<byte>)
    ensures Decode(Encode(bs)) == Some(bs)
    decreases |bs|
  {
    hide Decode, Letter;
    match |bs|
    case 0 => NothingDecodes();
    case 1 =>
      OneDecodes(bs[0]);
      assert bs == [bs[0]];
    case 2 =>
      TwoDecode(bs[0], bs[1]);
      assert bs == [bs[0], bs[1]];
    case _ =>
      DecodesEncoded(bs[3..]);
      ThreeDecode(bs[0], bs[1], bs[2], Encode(bs[3..]));
      ThreeEncode(bs);
      assert bs == [bs[0], bs[1], bs[2]] + bs[3..];
  }

  lemma {:induction false} NothingDecodes()
    ensures Decode(Encode([])) == Some([])
  {
  }

  lemma {:induction false} ThreeEncode(bs: seq<byte>)
    requires |bs| >= 3
    ensures var (p, q, r) := (bs[0] as int, bs[1] as int, bs[2] as int);
      Encode(bs) ==
        [Letter(p / 4), Letter(p % 4 * 16 + q / 16), Letter(q % 16 * 4 + r / 64), Letter(r % 64)] + Encode(bs[3..])
  {
    hide Letter;
  }

  lemma {:induction false} EncodedLetters(bs: seq<byte>)
    ensures forall c :: c in Encode(bs) ==> c != '\n' && c != '-'
    decreases |bs|
  {
    hide Letter;
    if |bs| > 2 { EncodedLetters(bs[3..]); }
  }

  // ---- Lines ----

  predicate OneLine(s: string) { '\n' !in s }

  predicate OneLineEach(ls: seq<string>) { forall i :: 0 <= i < |ls| ==> OneLine(ls[i]) }

  /** The lines, each ended. */
  function Text(ls: seq<string>): string {
    if ls == [] then "" else ls[0] + "\n" + Text(ls[1..])
  }

  /** The text before its first line end. */
  function UpTo(s: string): (l: string)
    ensures |l| <= |s| && (|l| < |s| ==> s[|l|] == '\n')
  {
    if s == "" || s[0] == '\n' then "" else [s[0]] + UpTo(s[1..])
  }

  /** The lines of a text; a last line that is not ended counts when it is not empty. */
  function LinesOf(s: string): seq<string>
    decreases |s|
  {
    if s == "" then []
    else
      var l := UpTo(s);
      [l] + if |l| == |s| then [] else LinesOf(s[|l| + 1..])
  }

  lemma {:induction false} FirstLine(l: string, rest: string)
    requires OneLine(l)
    ensures UpTo(l + "\n" + rest) == l
    decreases |l|
  {
    var s := l + "\n" + rest;
    if l != "" {
      FirstLine(l[1..], rest);
      assert s[1..] == l[1..] + "\n" + rest;
      assert l == [l[0]] + l[1..];
    }
  }

  lemma {:induction false} LinesRead(ls: seq<string>)
    requires OneLineEach(ls)
    ensures LinesOf(Text(ls)) == ls
    decreases |ls|
  {
    if ls != [] {
      assert OneLine(ls[0]) && OneLineEach(ls[1..]);
      LinesRead(ls[1..]);
      FirstLine(ls[0], Text(ls[1..]));
      assert Text(ls)[|ls[0]| + 1..] == Text(ls[1..]);
    }
  }

  // ---- Blocks, section 3 of RFC 7468 ----

  const BEGIN := "-----BEGIN CERTIFICATE-----"
  const END := "-----END CERTIFICATE-----"

  function Flat(ls: seq<string>): string {
    if ls == [] then "" else ls[0] + Flat(ls[1..])
  }

  /** The body of a block, up to its end, and the lines after it. */
  function Body(ls: seq<string>): (r: Option<(seq<string>, seq<string>)>)
    ensures r.Some? ==> |r.value.1| < |ls|
  {
    if ls == [] then None
    else if ls[0] == END then Some(([], ls[1..]))
    else
      match Body(ls[1..])
      case None => None
      case Some((body, rest)) => Some(([ls[0]] + body, rest))
  }

  /** What a reader gets: the certificates of the blocks in order; text outside blocks is passed over. */
  function Read(ls: seq<string>): Option<seq<seq<byte>>>
    decreases |ls|
  {
    if ls == [] then Some([])
    else if ls[0] != BEGIN then Read(ls[1..])
    else
      match Body(ls[1..])
      case None => None
      case Some((body, rest)) =>
        match (Decode(Flat(body)), Read(rest))
        case (Some(der), Some(ders)) => Some([der] + ders)
        case _ => None
  }

  // ---- Writing ----

  /** body[i:i + 64] for i in range(0, len(body), 64). */
  function Wrapped(body: string): seq<string> {
    if body == "" then []
    else if |body| <= 64 then [body]
    else [body[..64]] + Wrapped(body[64..])
  }

  function Join(ls: seq<string>): string {
    if ls == [] then "" else if |ls| == 1 then ls[0] else ls[0] + "\n" + Join(ls[1..])
  }

  function ToPem(der: seq<byte>): string {
    BEGIN + "\n" + Join(Wrapped(Encode(der))) + "\n" + END + "\n"
  }

  /** Numbers in decimal. */
  function Decimal(n: nat): (s: string)
    ensures OneLine(s)
  {
    (if n < 10 then "" else Decimal(n / 10)) + [('0' as int + n % 10) as char]
  }

  const ABOUT: string := "# Mozilla's CA root store, as shipped " + "by org.mozilla.ca-certificates."
  const DATA: string := "# This file is package DATA, not " + "configuration. trustd composes the"
  const STORE: string := "# machine store from it and " + "Machine\\System\\Trust\\Certificates."
  const LOCAL: string := "# Use `trust add` or `trust distrust` " + "for local trust decisions."
  const SOURCE: string := "# Source: "
  const ONLY: string := "# Included only when " + "CKA_TRUST_SERVER_AUTH is"
  const VALUE: string := "# CKT_NSS_TRUSTED_DELEGATOR."
  const COUNT: string := "# Trusted roots: "

  function Header(source: string, count: nat): seq<string> {
    [ABOUT, "#", DATA, STORE, LOCAL, "#", SOURCE + source, ONLY, VALUE, COUNT + Decimal(count) + ".", ""]
  }

  function Note(e: Entry): string {
    "# " + e.name + "\n# SHA-256 " + e.fingerprint + "\n"
  }

  function Certificate(e: Entry): string { Note(e) + ToPem(e.der) + "\n" }

  function Certificates(es: seq<Entry>): string {
    if es == [] then "" else Certificates(es[..|es| - 1]) + Certificate(es[|es| - 1])
  }

  lemma {:induction false} OneMoreCertificate(es: seq<Entry>, i: nat)
    requires i < |es|
    ensures Certificates(es[..i + 1]) == Certificates(es[..i]) + Certificate(es[i])
  {
    hide Certificate;
    assert es[..i + 1][..i] == es[..i];
  }

  method Render(entries: seq<Entry>, source: string) returns (text: string)
    ensures text == Text(Header(source, |entries|)) + Certificates(entries)
  {
    hide Header, Text, Note, ToPem, Certificates;
    var header := Text(Header(source, |entries|));
    text := header;
    NoCertificates(entries);
    for i := 0 to |entries|
      invariant text == header + Certificates(entries[..i])
    {
      var e := entries[i];
      ghost var before := text;
      OneMoreCertificate(entries, i);
      text := text + Note(e);
      text := text + ToPem(e.der);
      text := text + "\n";
      assert text == before + (Note(e) + ToPem(e.der) + "\n");
    }
    assert entries[..|entries|] == entries;
  }

  lemma {:induction false} NoCertificates(es: seq<Entry>)
    ensures Certificates(es[..0]) == ""
  {
  }

  // ---- Reading back ----

  /** The lines of one certificate. */
  function Block(e: Entry): seq<string> {
    var body := Wrapped(Encode(e.der));
    ["# " + e.name, "# SHA-256 " + e.fingerprint, BEGIN] + (if body == [] then [""] else body) + [END, ""]
  }

  function Blocks(es: seq<Entry>): seq<string> {
    if es == [] then [] else Blocks(es[..|es| - 1]) + Block(es[|es| - 1])
  }

  lemma {:induction false} TextJoin(a: seq<string>, b: seq<string>)
    ensures Text(a + b) == Text(a) + Text(b)
    decreases |a|
  {
    if a == [] {
      assert a + b == b;
    } else {
      TextJoin(a[1..], b);
      assert (a + b)[1..] == a[1..] + b;
    }
  }

  lemma {:induction false} JoinText(ls: seq<string>)
    requires ls != []
    ensures Join(ls) + "\n" == Text(ls)
    decreases |ls|
  {
    if |ls| > 1 { JoinText(ls[1..]); } else { assert Text(ls[1..]) == ""; }
  }

  lemma {:induction false} TextOf(l: string)
    ensures Text([l]) == l + "\n"
  {
    assert [l][1..] == [] && Text([]) == "";
    assert l + "\n" + "" == l + "\n";
  }

  lemma {:induction false} CertificateText(e: Entry)
    ensures Certificate(e) == Text(Block(e))
  {
    hide Encode, Wrapped, Text, Join;
    var wrapped := Wrapped(Encode(e.der));
    var body := if wrapped == [] then [""] else wrapped;
    var name, mark := "# " + e.name, "# SHA-256 " + e.fingerprint;
    JoinText(body);
    JoinNothing();
    TextJoin([name] + [mark] + [BEGIN] + body + [END], [""]);
    TextJoin([name] + [mark] + [BEGIN] + body, [END]);
    TextJoin([name] + [mark] + [BEGIN], body);
    TextJoin([name] + [mark], [BEGIN]);
    TextJoin([name], [mark]);
    TextOf(name);
    TextOf(mark);
    TextOf(BEGIN);
    TextOf(END);
    TextOf("");
    assert Block(e) == [name] + [mark] + [BEGIN] + body + [END] + [""];
    CertificateParts(name, mark, Join(wrapped));
  }

  lemma {:induction false} CertificateParts(name: string, mark: string, body: string)
    ensures name + "\n" + (mark + "\n") + (BEGIN + "\n") + (body + "\n") + (END + "\n") + ("" + "\n") ==
      (name + "\n" + mark + "\n") + (BEGIN + "\n" + body + "\n" + END + "\n") + "\n"
  {
  }

  lemma {:induction false} JoinNothing()
    ensures Join([]) == "" == Join([""])
  {
  }

  lemma {:induction false} CertificatesText(es: seq<Entry>)
    ensures Certificates(es) == Text(Blocks(es))
    decreases |es|
  {
    hide Certificate, Block;
    if es != [] {
      var k := |es| - 1;
      CertificatesText(es[..k]);
      CertificateText(es[k]);
      TextJoin(Blocks(es[..k]), Block(es[k]));
    }
  }

  predicate Encoded(s: string) { forall c :: c in s ==> c != '\n' && c != '-' }

  lemma {:induction false} WrapsAll(body: string)
    requires Encoded(body)
    ensures Flat(Wrapped(body)) == body
    ensures forall i :: 0 <= i < |Wrapped(body)| ==> Encoded(Wrapped(body)[i]) && |Wrapped(body)[i]| <= 64
    decreases |body|
  {
    if |body| > 64 {
      assert forall c :: c in body[64..] ==> c in body;
      assert forall c :: c in body[..64] ==> c in body;
      WrapsAll(body[64..]);
      assert ([body[..64]] + Wrapped(body[64..]))[1..] == Wrapped(body[64..]);
    } else if body != "" {
      assert [body][1..] == [];
    }
  }

  lemma {:induction false} BodyRead(body: seq<string>, rest: seq<string>)
    requires forall i :: 0 <= i < |body| ==> body[i] != END
    ensures Body(body + [END] + rest) == Some((body, rest))
    decreases |body|
  {
    var ls := body + [END] + rest;
    if body == [] {
      assert ls[1..] == rest;
    } else {
      BodyRead(body[1..], rest);
      assert ls[1..] == body[1..] + [END] + rest;
      assert [body[0]] + body[1..] == body;
    }
  }

  /** A line that begins no block. */
  predicate Outside(l: string) { l == "" || l[0] == '#' }

  lemma {:induction false} PassedOver(a: seq<string>, b: seq<string>)
    requires forall i :: 0 <= i < |a| ==> Outside(a[i])
    ensures Read(a + b) == Read(b)
    decreases |a|
  {
    if a == [] {
      assert a + b == b;
    } else {
      assert Outside(a[0]) && a[0] != BEGIN by { assert BEGIN[0] == '-'; }
      PassedOver(a[1..], b);
      assert (a + b)[1..] == a[1..] + b;
    }
  }

  lemma {:induction false} BlockRead(e: Entry, rest: seq<string>)
    ensures Read(Block(e) + rest) == match Read(rest) case None => None case Some(ders) => Some([e.der] + ders)
  {
    hide Encode, Wrapped, Decode, Flat;
    var wrapped := Wrapped(Encode(e.der));
    var body := if wrapped == [] then [""] else wrapped;
    var notes, blank := ["# " + e.name, "# SHA-256 " + e.fingerprint], [""];
    EncodedLetters(e.der);
    WrapsAll(Encode(e.der));
    forall i | 0 <= i < |body| ensures body[i] != END {
      assert END[0] == '-';
      if body[i] != "" { assert body[i][0] in body[i]; }
    }
    assert Block(e) + rest == notes + ([BEGIN] + (body + [END] + (blank + rest)));
    PassedOver(notes, [BEGIN] + (body + [END] + (blank + rest)));
    PassedOver(blank, rest);
    BodyRead(body, blank + rest);
    FlatEmpty();
    DecodesEncoded(e.der);
    var ls := [BEGIN] + (body + [END] + (blank + rest));
    assert ls[1..] == body + [END] + (blank + rest);
    assert Flat(body) == Encode(e.der);
  }

  lemma {:induction false} FlatEmpty()
    ensures Flat([""]) == "" == Flat([])
  {
    assert [""][1..] == [];
  }

  function Ders(es: seq<Entry>): seq<seq<byte>> { seq(|es|, i requires 0 <= i < |es| => es[i].der) }

  lemma {:induction false} BlocksRead(es: seq<Entry>, rest: seq<string>)
    ensures Read(Blocks(es) + rest) == match Read(rest) case None => None case Some(ders) => Some(Ders(es) + ders)
    decreases |es|
  {
    hide Block, Read;
    if es == [] {
      assert Blocks(es) + rest == rest;
      assert Read(rest).Some? ==> Ders(es) + Read(rest).value == Read(rest).value;
    } else {
      var k := |es| - 1;
      var last := Block(es[k]) + rest;
      assert Blocks(es) + rest == Blocks(es[..k]) + last;
      BlocksRead(es[..k], last);
      BlockRead(es[k], rest);
      if Read(rest).Some? {
        var ders := Read(rest).value;
        assert Ders(es[..k]) + ([es[k].der] + ders) == Ders(es) + ders;
      }
    }
  }

  predicate Writable(e: Entry) { OneLine(e.name) && OneLine(e.fingerprint) }

  lemma {:induction false} BlockIsLines(e: Entry)
    requires Writable(e)
    ensures OneLineEach(Block(e))
  {
    hide Encode, Wrapped;
    EncodedLetters(e.der);
    WrapsAll(Encode(e.der));
    var body := Wrapped(Encode(e.der));
    assert OneLineEach(body);
    Begun("# ", e.name);
    Begun("# SHA-256 ", e.fingerprint);
    assert OneLine("") && OneLine(BEGIN) && OneLine(END);
    hide OneLine;
  }

  lemma {:induction false} BlocksAreLines(es: seq<Entry>)
    requires forall i :: 0 <= i < |es| ==> Writable(es[i])
    ensures OneLineEach(Blocks(es))
    decreases |es|
  {
    hide Block, OneLine, Writable;
    if es != [] {
      var k := |es| - 1;
      BlocksAreLines(es[..k]);
      BlockIsLines(es[k]);
    }
  }

  /** The rendered bundle reads back as exactly the certificates it was given, in order. */
  lemma {:induction false} ReadsBack(es: seq<Entry>, source: string)
    requires OneLine(source) && forall i :: 0 <= i < |es| ==> Writable(es[i])
    ensures Read(LinesOf(Text(Header(source, |es|)) + Certificates(es))) == Some(Ders(es))
  {
    hide Header, Read, LinesOf, Text, Blocks;
    var header := Header(source, |es|);
    HeaderLines(source, |es|);
    CertificatesText(es);
    TextJoin(header, Blocks(es));
    BlocksAreLines(es);
    LinesRead(header + Blocks(es));
    PassedOver(header, Blocks(es));
    assert Blocks(es) + [] == Blocks(es);
    BlocksRead(es, []);
    NothingRead();
    assert Ders(es) + [] == Ders(es);
  }

  lemma {:induction false} NothingRead()
    ensures Read([]) == Some([])
  {
  }

  lemma {:induction false} AboutLine()
    ensures OneLine(ABOUT) && Outside(ABOUT)
  {
  }

  lemma {:induction false} DataLine()
    ensures OneLine(DATA) && Outside(DATA)
  {
  }

  lemma {:induction false} StoreLine()
    ensures OneLine(STORE) && Outside(STORE)
  {
  }

  lemma {:induction false} LocalLine()
    ensures OneLine(LOCAL) && Outside(LOCAL)
  {
  }

  lemma {:induction false} OnlyLine()
    ensures OneLine(ONLY) && Outside(ONLY)
  {
  }

  lemma {:induction false} ValueLine()
    ensures OneLine(VALUE) && Outside(VALUE)
  {
  }

  lemma {:induction false} SourceLine()
    ensures OneLine(SOURCE) && Outside(SOURCE)
  {
  }

  lemma {:induction false} CountLine()
    ensures OneLine(COUNT) && Outside(COUNT)
  {
  }

  lemma {:induction false} HeaderLines(source: string, count: nat)
    requires OneLine(source)
    ensures forall i :: 0 <= i < |Header(source, count)| ==>
      Outside(Header(source, count)[i]) && OneLine(Header(source, count)[i])
  {
    hide Decimal;
    AboutLine();
    DataLine();
    StoreLine();
    LocalLine();
    OnlyLine();
    ValueLine();
    SourceLine();
    CountLine();
    Begun(SOURCE, source);
    Begun(COUNT, Decimal(count) + ".");
    assert COUNT + Decimal(count) + "." == COUNT + (Decimal(count) + ".");
    assert OneLine(".");
    hide Outside, OneLine;
    forall i | 0 <= i < |Header(source, count)|
      ensures Outside(Header(source, count)[i]) && OneLine(Header(source, count)[i])
    {
    }
  }

  lemma {:induction false} Begun(l: string, rest: string)
    requires l != "" && Outside(l) && OneLine(l) && OneLine(rest)
    ensures Outside(l + rest) && OneLine(l + rest)
  {
  }

  // ---- From objects to the bundle ----

  /** A bundle of exactly the certificates whose records say they are trusted, each once. */
  ghost predicate HoldsTrusted(m: Objects, ders: seq<seq<byte>>) {
    (forall der :: der in ders <==> IsTrusted(m, der)) && forall i, j :: 0 <= i < j < |ders| ==> ders[i] != ders[j]
  }

  ghost predicate IsTrusted(m: Objects, der: seq<byte>) {
    exists o :: o in Those(m, CERTIFICATE) && Marked(m, o, Trusted) && DerOf(o) == Some(der)
  }

  ghost predicate OneLinePrints(digest: Digest) { forall bytes :: OneLine(digest(bytes)) }

  lemma {:induction false} LabelIsOneLine(o: CertData.Obj)
    ensures LabelOf(o).Some? ==> OneLine(LabelOf(o).value)
  {
    assert OneLine("(unnamed)");
  }

  lemma {:induction false} EntriesAreWritable(digest: Digest, m: Objects, es: seq<Entry>, c: Counts)
    requires IsConversion(digest, m, es, c) && OneLinePrints(digest)
    ensures forall i :: 0 <= i < |es| ==> Writable(es[i])
  {
    hide Tallied, Marked, Ordered, Less, LabelOf, DerOf, OneLine;
    forall i | 0 <= i < |es| ensures Writable(es[i]) {
      assert es[i] in es;
      var o :| o in Those(m, CERTIFICATE) && Marked(m, o, Trusted) && IsEntry(digest, o, es[i]);
      LabelIsOneLine(o);
    }
  }

  /** Acceptable certificates with the same bytes are the same, so the sorted entries hold no bytes twice. */
  lemma {:induction false} TrustedOnce(digest: Digest, m: Objects, es: seq<Entry>, c: Counts)
    requires Acceptable(digest, m) && IsConversion(digest, m, es, c)
    ensures HoldsTrusted(m, Ders(es))
  {
    hide Tallied, Marked, Less, LabelOf, DerOf, Distinct, Matched, OneRootList, Known, KeyOf, Those;
    var ders := Ders(es);
    forall der ensures der in ders <==> IsTrusted(m, der) {
      if der in ders {
        var i :| 0 <= i < |ders| && ders[i] == der;
        assert es[i] in es;
        var o :| o in Those(m, CERTIFICATE) && Marked(m, o, Trusted) && IsEntry(digest, o, es[i]);
        assert DerOf(o) == Some(der);
      }
      if IsTrusted(m, der) {
        var o :| o in Those(m, CERTIFICATE) && Marked(m, o, Trusted) && DerOf(o) == Some(der);
        var e := EntryOf(digest, o);
        assert e in es;
        var i :| 0 <= i < |es| && es[i] == e;
        assert ders[i] == der;
      }
    }
    forall i, j | 0 <= i < j < |ders| ensures ders[i] != ders[j] {
      assert es[i] in es && es[j] in es;
      var o :| o in Those(m, CERTIFICATE) && Marked(m, o, Trusted) && IsEntry(digest, o, es[i]);
      var p :| p in Those(m, CERTIFICATE) && Marked(m, p, Trusted) && IsEntry(digest, p, es[j]);
      LessIsOrder(es[i], es[j], es[i]);
      assert Less(es[i], es[j]);
      assert ders[i] == ders[j] ==> SameBytes(digest, o, p);
    }
  }

  /** What main writes: the bundle of the converted objects, if enough are trusted. It reads back as exactly the trusted
      certificates. */
  method Bundle(digest: Digest, objects: seq<CertData.Obj>, floor: int, source: string) returns (r: Option<string>)
    ensures var m := multiset(objects);
      r.Some? <==> Acceptable(digest, m) && |With(m, Those(m, CERTIFICATE), Trusted)| >= floor
    ensures r.Some? && OneLine(source) && OneLinePrints(digest) ==>
      var ders := Read(LinesOf(r.value));
      ders.Some? && HoldsTrusted(multiset(objects), ders.value)
  {
    hide Acceptable, IsConversion, HoldsTrusted, OneLinePrints, Certificates, Header, Text, Read, LinesOf, With, Those;
    var converted := Convert(digest, objects);
    if converted.Err? { return None; }
    var (entries, counts) := converted.value;
    CountsAddUp(digest, multiset(objects), entries, counts);
    TrustedCount(digest, multiset(objects), entries, counts);
    if |entries| < floor { return None; }
    var text := Render(entries, source);
    if OneLine(source) && OneLinePrints(digest) {
      EntriesAreWritable(digest, multiset(objects), entries, counts);
      ReadsBack(entries, source);
      TrustedOnce(digest, multiset(objects), entries, counts);
    }
    return Some(text);
  }

  lemma {:induction false} TrustedCount(digest: Digest, m: Objects, es: seq<Entry>, c: Counts)
    requires IsConversion(digest, m, es, c)
    ensures c.trusted == |With(m, Those(m, CERTIFICATE), Trusted)|
  {
    hide With, Those, Ordered, ListsRoots, WithCutoff;
  }
}

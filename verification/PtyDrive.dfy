/** Scripting a command on a pseudo-terminal: send, and expect in order (pty-drive.c). */
module PtyDrive {
  import opened Prelude

  type Text = seq<byte>

  const NUL: byte := 0
  const NEWLINE: byte := 10
  const HASH: byte := 35
  const BACKSLASH: byte := 92
  const HEX: byte := 120
  const SEND: Text := [115, 101, 110, 100, 32]            // "send "
  const EXPECT: Text := [101, 120, 112, 101, 99, 116, 32]  // "expect "

  // ---- Escapes ----

  predicate IsSpace(b: byte) { b == 32 || 9 <= b <= 13 }

  function HexDigit(b: byte): (d: Option<nat>)
    ensures d.Some? ==> d.value < 16
  {
    if 48 <= b <= 57 then Some(b - 48)
    else if 65 <= b <= 70 then Some(b - 55)
    else if 97 <= b <= 102 then Some(b - 87)
    else None
  }

  /** strtol(hex, NULL, 16) of a two-character string, cast to char: leading white space and a sign are skipped, reading
      stops at the first character that is no digit, and no digits at all is zero. The prefix "0x" alone is zero too. */
  function HexByte(a: byte, b: byte): byte {
    var low := match HexDigit(b) case Some(d) => d case None => 0;
    match HexDigit(a)
    case Some(d) => if HexDigit(b).Some? then 16 * d + low else d
    case None =>
      if IsSpace(a) || a == 43 then low
      else if a == 45 && low != 0 then 256 - low
      else 0
  }

  /** The byte a one-letter escape stands for. */
  function Letter(b: byte): Option<byte> {
    if b == 114 then Some(13)
    else if b == 110 then Some(NEWLINE)
    else if b == 116 then Some(9)
    else if b == 101 then Some(27)
    else if b == BACKSLASH then Some(BACKSLASH)
    else None
  }

  datatype Fault = BadHex | UnknownEscape

  /** The spellings of one byte: itself, or an escape. */
  predicate IsSpelling(s: Text) {
    match |s|
    case 1 => s[0] != BACKSLASH
    case 2 => s[0] == BACKSLASH && Letter(s[1]).Some?
    case 4 => s[0] == BACKSLASH && s[1] == HEX
    case _ => false
  }

  function Spelled(s: Text): byte
    requires IsSpelling(s)
  {
    if |s| == 1 then s[0] else if |s| == 2 then Letter(s[1]).value else HexByte(s[2], s[3])
  }

  predicate AreSpellings(ss: seq<Text>) { forall i :: 0 <= i < |ss| ==> IsSpelling(ss[i]) }

  function Joined(ss: seq<Text>): Text {
    if ss == [] then [] else ss[0] + Joined(ss[1..])
  }

  function Meaning(ss: seq<Text>): (t: Text)
    requires AreSpellings(ss)
    ensures |t| == |ss|
  {
    if ss == [] then [] else [Spelled(ss[0])] + Meaning(ss[1..])
  }

  /** s is spellings, and perhaps one backslash at the very end that stands for itself. */
  ghost predicate Denotes(s: Text, t: Text) {
    exists ss: seq<Text> :: AreSpellings(ss) && IsWritten(s, ss, t)
  }

  predicate IsWritten(s: Text, ss: seq<Text>, t: Text)
    requires AreSpellings(ss)
  {
    (s == Joined(ss) && t == Meaning(ss)) || (s == Joined(ss) + [BACKSLASH] && t == Meaning(ss) + [BACKSLASH])
  }

  /** How many characters the next byte takes, of a string without NUL characters. */
  function Taken(s: Text): (r: Result<nat, Fault>)
    requires s != []
    ensures r.Ok? ==> 1 <= r.value <= |s|
  {
    if s[0] != BACKSLASH || |s| == 1 then Ok(1)
    else if s[1] == HEX then (if |s| < 4 then Err(BadHex) else Ok(4))
    else if Letter(s[1]).Some? then Ok(2)
    else Err(UnknownEscape)
  }

  function Unescaped(s: Text): (r: Result<Text, Fault>)
    ensures r.Ok? ==> |r.value| <= |s|
  {
    if s == [] then Ok([])
    else if s == [BACKSLASH] then Ok(s)
    else
      match Taken(s)
      case Err(e) => Err(e)
      case Ok(n) =>
        match Unescaped(s[n..])
        case Err(e) => Err(e)
        case Ok(t) => Ok([Spelled(s[..n])] + t)
  }

  lemma {:induction false} TakesSpelling(s: Text, rest: Text)
    requires IsSpelling(s)
    ensures Taken(s + rest) == Ok(|s|)
  {
    assert (s + rest)[0] == s[0];
    if |s| >= 2 { assert (s + rest)[1] == s[1]; }
  }

  lemma {:induction false} ReadsOne(s: Text, rest: Text)
    requires IsSpelling(s)
    ensures Unescaped(s + rest) ==
      match Unescaped(rest) case Err(e) => Err(e) case Ok(t) => Ok([Spelled(s)] + t)
  {
    hide Letter, HexByte;
    TakesSpelling(s, rest);
    assert (s + rest)[..|s|] == s && (s + rest)[|s|..] == rest;
    assert s + rest != [BACKSLASH] by { assert (s + rest)[0] == s[0]; }
  }

  lemma {:induction false} WrittenIsRead(s: Text, ss: seq<Text>, t: Text)
    requires AreSpellings(ss) && IsWritten(s, ss, t)
    ensures Unescaped(s) == Ok(t)
    decreases |ss|
  {
    hide IsSpelling, Spelled, Taken;
    if ss != [] {
      var head, rest := ss[0], ss[1..];
      var s', t' := s[|head|..], t[1..];
      assert IsSpelling(head) && AreSpellings(rest);
      assert s == head + s' && t == [Spelled(head)] + t';
      assert s' == Joined(rest) || s' == Joined(rest) + [BACKSLASH];
      assert t' == Meaning(rest) || t' == Meaning(rest) + [BACKSLASH];
      WrittenIsRead(s', rest, t');
      ReadsOne(head, s');
    }
  }

  lemma {:induction false} TakenIsSpelling(s: Text)
    requires s != [] && s != [BACKSLASH] && Taken(s).Ok?
    ensures IsSpelling(s[..Taken(s).value])
  {
  }

  lemma {:induction false} ReadIsWritten(s: Text) returns (ss: seq<Text>)
    requires Unescaped(s).Ok?
    ensures AreSpellings(ss) && IsWritten(s, ss, Unescaped(s).value)
    decreases |s|
  {
    hide IsSpelling, Spelled, Taken;
    if s == [] || s == [BACKSLASH] {
      ss := [];
    } else {
      var n := Taken(s).value;
      var rest := ReadIsWritten(s[n..]);
      TakenIsSpelling(s);
      ss := [s[..n]] + rest;
      assert ss[1..] == rest && AreSpellings(ss);
      assert s == s[..n] + s[n..];
    }
  }

  /** The escapes are accepted exactly when they spell something, and then mean what they spell. */
  lemma {:induction false} UnescapesSpellings(s: Text, t: Text)
    ensures Unescaped(s) == Ok(t) <==> Denotes(s, t)
  {
    if Unescaped(s) == Ok(t) { var ss := ReadIsWritten(s); }
    if Denotes(s, t) {
      var ss: seq<Text> :| AreSpellings(ss) && IsWritten(s, ss, t);
      WrittenIsRead(s, ss, t);
    }
  }

  function Escape(b: byte): Text {
    if b == NUL then [BACKSLASH, HEX, 48, 48]
    else if b == NEWLINE then [BACKSLASH, 110]
    else if b == BACKSLASH then [BACKSLASH, BACKSLASH]
    else [b]
  }

  function Escaped(t: Text): Text {
    if t == [] then [] else Escape(t[0]) + Escaped(t[1..])
  }

  /** Any bytes at all can be written on a script line. */
  lemma {:induction false} EverythingCanBeSpelled(t: Text)
    ensures Unescaped(Escaped(t)) == Ok(t) && NUL !in Escaped(t) && NEWLINE !in Escaped(t)
    decreases |t|
  {
    if t != [] {
      var head, rest := Escape(t[0]), Escaped(t[1..]);
      EverythingCanBeSpelled(t[1..]);
      ReadsOne(head, rest);
      assert Spelled(head) == t[0];
      assert [t[0]] + t[1..] == t;
    }
  }

  function After(head: Text, r: Result<Text, Fault>): Result<Text, Fault> {
    match r case Err(e) => Err(e) case Ok(t) => Ok(head + t)
  }

  lemma {:induction false} NothingYet(s: Text, none: Text)
    requires none == []
    ensures After(none, Unescaped(s[0..])) == Unescaped(s)
  {
    assert s[0..] == s;
    if Unescaped(s).Ok? { assert none + Unescaped(s).value == Unescaped(s).value; }
  }

  lemma {:induction false} AllRead(was: Text)
    ensures After(was, Unescaped([])) == Ok(was)
  {
    assert was + [] == was;
  }

  lemma {:induction false} TakeOne(was: Text, rest: Text)
    requires rest != []
    ensures After(was, Unescaped(rest)) ==
      if rest == [BACKSLASH] then After(was + rest, Unescaped([]))
      else match Taken(rest)
        case Err(e) => Err(e)
        case Ok(n) => After(was + [Spelled(rest[..n])], Unescaped(rest[n..]))
  {
    if rest == [BACKSLASH] {
      AllRead(was + rest);
    } else if Taken(rest).Ok? {
      var n := Taken(rest).value;
      var b := Spelled(rest[..n]);
      if Unescaped(rest[n..]).Ok? {
        var t := Unescaped(rest[n..]).value;
        assert was + ([b] + t) == was + [b] + t;
      }
    }
  }

  /** unescape: into a buffer that has room for as many bytes as there are characters. */
  method Unescape(s: Text, dst: array<byte>) returns (r: Result<nat, Fault>)
    requires NUL !in s && |s| <= dst.Length
    modifies dst
    ensures match Unescaped(s) case Err(e) => r == Err(e) case Ok(t) => r == Ok(|t|) && dst[..|t|] == t
    ensures r.Ok? ==> r.value <= |s|
  {
    hide Letter, HexByte, Unescaped, After;
    var n, i := 0, 0;
    NothingYet(s, dst[..0]);
    while i < |s|
      invariant n <= i <= |s|
      invariant Unescaped(s) == After(dst[..n], Unescaped(s[i..]))
      decreases |s| - i
    {
      ghost var was, rest := dst[..n], s[i..];
      ghost var k := i;
      TakeOne(was, rest);
      if s[i] != BACKSLASH || i + 1 == |s| {
        dst[n] := s[i];
        i := i + 1;
      } else if s[i + 1] == HEX {
        if i + 3 >= |s| { return Err(BadHex); }
        dst[n] := HexByte(s[i + 2], s[i + 3]);
        i := i + 4;
      } else {
        var letter := Letter(s[i + 1]);
        if letter.None? { return Err(UnknownEscape); }
        dst[n] := letter.value;
        i := i + 2;
      }
      n := n + 1;
      assert dst[..n] == was + [dst[n - 1]];
      assert s[i..] == rest[i - k..];
      assert rest != [BACKSLASH] ==> Taken(rest) == Ok(i - k) && Spelled(rest[..i - k]) == dst[n - 1];
    }
    assert s[i..] == [];
    AllRead(dst[..n]);
    return Ok(n);
  }

  // ---- Finding a text ----

  predicate OccursAt(data: Text, i: nat, text: Text) {
    i + |text| <= |data| && data[i..i + |text|] == text
  }

  /** Where a text first occurs at or after from. */
  function First(data: Text, from: nat, text: Text): (r: Option<nat>)
    ensures r.Some? ==> from <= r.value <= |data| - |text|
    decreases |data| - from
  {
    if from + |text| > |data| then None
    else if data[from..from + |text|] == text then Some(from)
    else First(data, from + 1, text)
  }

  lemma {:induction false} FirstIsLeast(data: Text, from: nat, text: Text, i: nat)
    ensures First(data, from, text).Some? ==> OccursAt(data, First(data, from, text).value, text)
    ensures from <= i && OccursAt(data, i, text) ==>
      First(data, from, text).Some? && First(data, from, text).value <= i
    decreases |data| - from
  {
    if from + |text| <= |data| && !OccursAt(data, from, text) { FirstIsLeast(data, from + 1, text, i); }
  }

  /** More output never changes where a text already found first occurs. */
  lemma {:induction false} FirstStays(data: Text, more: Text, from: nat, text: Text)
    requires First(data, from, text).Some?
    ensures First(data + more, from, text) == First(data, from, text)
    decreases |data| - from
  {
    assert (data + more)[from..from + |text|] == data[from..from + |text|];
    if data[from..from + |text|] != text { FirstStays(data, more, from + 1, text); }
  }

  /** What memmem finds from the mark when the transcript is data. Before the first read there is no buffer: the search
      of no bytes at a null pointer answers null, even for an empty text. */
  function Hit(data: Text, from: nat, text: Text): (r: Option<nat>)
    ensures r.Some? ==> from <= r.value <= |data| - |text|
  {
    if data == [] then None else First(data, from, text)
  }

  /** A text that occurs is hit, at its first place, unless there is no output at all; only an empty text occurs
      then. */
  lemma {:induction false} HitsWhatOccurs(data: Text, from: nat, text: Text)
    ensures Hit(data, from, text).Some? <==> data != [] && exists i: nat :: from <= i && OccursAt(data, i, text)
    ensures Hit(data, from, text).Some? ==>
      OccursAt(data, Hit(data, from, text).value, text) &&
      forall i: nat :: from <= i && OccursAt(data, i, text) ==> Hit(data, from, text).value <= i
    ensures data == [] && OccursAt(data, from, text) ==> text == [] && from == 0
  {
    hide First;
    forall i: nat { FirstIsLeast(data, from, text, i); }
    FirstIsLeast(data, from, text, 0);
  }

  /** More output never changes where a text already hit stands. */
  lemma {:induction false} HitStays(data: Text, more: Text, from: nat, text: Text)
    requires Hit(data, from, text).Some?
    ensures Hit(data + more, from, text) == Hit(data, from, text)
  {
    hide First;
    FirstStays(data, more, from, text);
  }

  /** The end of the last of the texts, each looked for where the one before it ended. */
  function FinalMark(data: Text, from: nat, texts: seq<Text>): Option<nat>
    decreases |texts|
  {
    if texts == [] then Some(from)
    else
      match Hit(data, from, texts[0])
      case None => None
      case Some(i) => FinalMark(data, i + |texts[0]|, texts[1..])
  }

  /** The texts occur at these places, in order and without overlap. */
  predicate InOrder(data: Text, from: nat, texts: seq<Text>, places: seq<nat>) {
    |places| == |texts| && forall k :: 0 <= k < |texts| ==> PlacedAt(data, from, texts, places, k)
  }

  predicate PlacedAt(data: Text, from: nat, texts: seq<Text>, places: seq<nat>, k: nat)
    requires |places| == |texts| && k < |texts|
  {
    OccursAt(data, places[k], texts[k]) && (if k == 0 then from else places[k - 1] + |texts[k - 1]|) <= places[k]
  }

  function EndOf(from: nat, texts: seq<Text>, places: seq<nat>): nat
    requires |places| == |texts|
  {
    if texts == [] then from else places[|places| - 1] + |texts[|texts| - 1]|
  }

  lemma {:induction false} LaterInOrder(data: Text, from: nat, texts: seq<Text>, places: seq<nat>)
    requires InOrder(data, from, texts, places) && texts != []
    ensures InOrder(data, places[0] + |texts[0]|, texts[1..], places[1..])
  {
    var end, rest, others := places[0] + |texts[0]|, texts[1..], places[1..];
    forall k | 0 <= k < |rest| ensures PlacedAt(data, end, rest, others, k) {
      assert PlacedAt(data, from, texts, places, k + 1);
    }
  }

  /** Looking for each text greedily misses nothing: wherever else they occur in order, the mark is not beyond the
      end. */
  lemma {:induction false} GreedyIsLeast(data: Text, from: nat, texts: seq<Text>, start: nat, places: seq<nat>)
    requires from <= start && InOrder(data, start, texts, places) && data != []
    ensures FinalMark(data, from, texts).Some? && FinalMark(data, from, texts).value <= EndOf(start, texts, places)
    decreases |texts|
  {
    if texts != [] {
      var text, rest := texts[0], texts[1..];
      assert PlacedAt(data, start, texts, places, 0);
      FirstIsLeast(data, from, text, places[0]);
      var i := Hit(data, from, text).value;
      LaterInOrder(data, start, texts, places);
      GreedyIsLeast(data, i + |text|, rest, places[0] + |text|, places[1..]);
      assert EndOf(start, texts, places) == EndOf(places[0] + |text|, rest, places[1..]);
    }
  }

  lemma {:induction false} GreedyIsInOrder(data: Text, from: nat, texts: seq<Text>) returns (places: seq<nat>)
    requires FinalMark(data, from, texts).Some?
    ensures InOrder(data, from, texts, places) && FinalMark(data, from, texts).value == EndOf(from, texts, places)
    decreases |texts|
  {
    places := [];
    if texts != [] {
      var text, rest := texts[0], texts[1..];
      FirstIsLeast(data, from, text, 0);
      var i := Hit(data, from, text).value;
      var others := GreedyIsInOrder(data, i + |text|, rest);
      places := [i] + others;
      forall k | 0 <= k < |texts| ensures PlacedAt(data, from, texts, places, k) {
        if k > 0 { assert PlacedAt(data, i + |text|, rest, others, k - 1); }
      }
    }
  }

  /** All the texts are found exactly when they occur in order without overlap and there is some output, or no text to
      find; and the final mark is the least end of any such places. */
  lemma {:induction false} FoundWhenInOrder(data: Text, from: nat, texts: seq<Text>)
    ensures FinalMark(data, from, texts).Some? <==>
      (data != [] || texts == []) && exists places: seq<nat> :: InOrder(data, from, texts, places)
    ensures forall places: seq<nat> :: InOrder(data, from, texts, places) && FinalMark(data, from, texts).Some? ==>
      FinalMark(data, from, texts).value <= EndOf(from, texts, places)
    ensures FinalMark(data, from, texts).Some? ==>
      exists places: seq<nat> :: InOrder(data, from, texts, places) &&
        FinalMark(data, from, texts).value == EndOf(from, texts, places)
  {
    if texts == [] {
      assert InOrder(data, from, texts, []);
    } else if data != [] {
      hide FinalMark;
      if FinalMark(data, from, texts).Some? { var places := GreedyIsInOrder(data, from, texts); }
      forall places: seq<nat> | InOrder(data, from, texts, places)
        ensures FinalMark(data, from, texts).Some? && FinalMark(data, from, texts).value <= EndOf(from, texts, places)
      {
        GreedyIsLeast(data, from, texts, from, places);
      }
      if places: seq<nat> :| InOrder(data, from, texts, places) {
        assert FinalMark(data, from, texts).Some?;
      }
    }
  }

  // ---- The terminal ----

  /** What one turn of a wait meets: output of the command, nothing yet, or the end of the run's time. */
  datatype Event = Output(bytes: Text) | Quiet | Expired | PollFailed

  predicate EventOk(e: Event) { e.Output? ==> 1 <= |e.bytes| <= 4096 }

  type Feed = f: seq<Event> | forall e <- f :: EventOk(e)

  /** What the command still writes before the run must end. After the last event the terminal is closed. */
  function Coming(feed: Feed): Text {
    if feed == [] || feed[0].Expired? || feed[0].PollFailed? then []
    else (if feed[0].Output? then feed[0].bytes else []) + Coming(feed[1..])
  }

  const CLOSED: nat := 1
  const TIMED_OUT: nat := 124
  const USAGE: nat := 125

  /** The status of a wait that never finds its text. */
  function Ending(feed: Feed): nat {
    if feed == [] then CLOSED
    else if feed[0].Expired? then TIMED_OUT
    else if feed[0].PollFailed? then USAGE
    else Ending(feed[1..])
  }

  // ---- The script ----

  datatype Command = Nothing | Send(bytes: Text) | Await(text: Text) | Broken

  /** The line up to its first NUL character. */
  function CString(line: Text): (s: Text)
    ensures NUL !in s && s <= line
  {
    if line == [] || line[0] == NUL then [] else [line[0]] + CString(line[1..])
  }

  /** A script line without its newline. */
  function ReadLine(line: Text): Command {
    if line == [] || line[0] == HASH then Nothing
    else if SEND <= line then
      match Unescaped(CString(line[|SEND|..])) case Ok(t) => Send(t) case Err(_) => Broken
    else if EXPECT <= line then
      match Unescaped(CString(line[|EXPECT|..])) case Ok(t) => Await(t) case Err(_) => Broken
    else Broken
  }

  function Texts(lines: seq<Text>): seq<Text> {
    if lines == [] then []
    else
      match ReadLine(lines[0])
      case Await(t) => [t] + Texts(lines[1..])
      case _ => Texts(lines[1..])
  }

  function Sent(lines: seq<Text>): Text {
    if lines == [] then []
    else
      match ReadLine(lines[0])
      case Send(t) => t + Sent(lines[1..])
      case _ => Sent(lines[1..])
  }

  predicate NoneBroken(lines: seq<Text>) { forall i :: 0 <= i < |lines| ==> ReadLine(lines[i]) != Broken }

  /** The status the script stops with on a transcript, or None when it is played to its end. */
  function Stop(lines: seq<Text>, whole: Text, from: nat, ending: nat): Option<nat>
    decreases |lines|
  {
    if lines == [] then None
    else
      match ReadLine(lines[0])
      case Broken => Some(USAGE)
      case Await(text) => (
        match Hit(whole, from, text)
        case None => Some(ending)
        case Some(i) => Stop(lines[1..], whole, i + |text|, ending))
      case _ => Stop(lines[1..], whole, from, ending)
  }

  /** Where and why a script stops: its first k lines are fine and all their texts found, and line k is no command or
      waits for a text that never comes. */
  predicate StopsAt(lines: seq<Text>, whole: Text, from: nat, k: nat) {
    k < |lines| && NoneBroken(lines[..k]) && FinalMark(whole, from, Texts(lines[..k])).Some? &&
    match ReadLine(lines[k])
    case Broken => true
    case Await(text) => Hit(whole, FinalMark(whole, from, Texts(lines[..k])).value, text) == None
    case _ => false
  }

  lemma {:induction false} PlayedToTheEnd(lines: seq<Text>, whole: Text, from: nat, ending: nat)
    ensures Stop(lines, whole, from, ending) == None <==>
      NoneBroken(lines) && FinalMark(whole, from, Texts(lines)).Some?
    decreases |lines|
  {
    hide Hit, ReadLine;
    if lines != [] {
      var rest := lines[1..];
      assert NoneBroken(lines) <==> ReadLine(lines[0]) != Broken && NoneBroken(rest) by {
        assert forall i :: 0 <= i < |rest| ==> rest[i] == lines[i + 1];
        assert forall i :: 0 < i < |lines| ==> lines[i] == rest[i - 1];
      }
      match ReadLine(lines[0])
      case Await(text) =>
        assert ([text] + Texts(rest))[1..] == Texts(rest);
        if Hit(whole, from, text).Some? {
          PlayedToTheEnd(rest, whole, Hit(whole, from, text).value + |text|, ending);
        }
      case _ => PlayedToTheEnd(rest, whole, from, ending);
    }
  }

  /** A script that is not played to its end stops at its first line that cannot be carried out. */
  lemma {:induction false} StoppedOnTheWay(lines: seq<Text>, whole: Text, from: nat, ending: nat) returns (k: nat)
    requires Stop(lines, whole, from, ending).Some?
    ensures StopsAt(lines, whole, from, k)
    ensures Stop(lines, whole, from, ending) == Some(if ReadLine(lines[k]) == Broken then USAGE else ending)
    decreases |lines|
  {
    hide Hit, ReadLine;
    var rest := lines[1..];
    match ReadLine(lines[0]) {
      case Broken => k := 0;
      case Await(text) =>
        if Hit(whole, from, text).None? {
          k := 0;
        } else {
          var i := Hit(whole, from, text).value;
          k := StoppedOnTheWay(rest, whole, i + |text|, ending);
          assert lines[..k + 1][1..] == rest[..k];
          assert ([text] + Texts(rest[..k]))[1..] == Texts(rest[..k]);
          MoreUnbroken(lines, k);
          k := k + 1;
        }
      case _ =>
        k := StoppedOnTheWay(rest, whole, from, ending);
        assert lines[..k + 1][1..] == rest[..k];
        MoreUnbroken(lines, k);
        k := k + 1;
    }
  }

  lemma {:induction false} MoreUnbroken(lines: seq<Text>, k: nat)
    requires 1 + k <= |lines| && ReadLine(lines[0]) != Broken && NoneBroken(lines[1..][..k])
    ensures NoneBroken(lines[..k + 1])
  {
    var kept, later := lines[..k + 1], lines[1..][..k];
    assert forall i :: 0 < i < |kept| ==> kept[i] == later[i - 1];
  }

  /** `expect` with no text, of a command that writes nothing: the empty text occurs, and is never found. The run fails
      with the status of how the output ends. */
  lemma {:induction false} EmptyExpectOfNothing(ending: nat)
    ensures ReadLine(EXPECT) == Await([]) && InOrder([], 0, [[]], [0])
    ensures Stop([EXPECT], [], 0, ending) == Some(ending) && StopsAt([EXPECT], [], 0, 0)
  {
    assert EXPECT[|EXPECT|..] == [] && EXPECT[0] != HASH && EXPECT[0] != SEND[0];
    assert [EXPECT][..0] == [];
    assert PlacedAt([], 0, [[]], [0], 0);
  }

  lemma {:induction false} TooShort(data: Text, from: nat, text: Text)
    requires from + |text| > |data|
    ensures Hit(data, from, text) == None
  {
  }

  lemma {:induction false} AtExpiry(feed: Feed)
    requires feed != [] && feed[0].Expired?
    ensures Coming(feed) == [] && Ending(feed) == TIMED_OUT
  {
  }

  lemma {:induction false} HitIn(data: Text, from: nat, text: Text)
    ensures Hit(data, from, text) == if data == [] then None else First(data, from, text)
  {
    hide First;
  }

  /** What pump tells its caller. */
  datatype Turn = Going | Closed | Failed

  /** What the first of the remaining lines adds. */
  lemma {:induction false} NextLine(lines: seq<Text>, whole: Text, from: nat, ending: nat)
    requires lines != []
    ensures var rest := lines[1..];
      match ReadLine(lines[0])
      case Broken => Stop(lines, whole, from, ending) == Some(USAGE)
      case Await(text) => (
        Sent(lines) == Sent(rest) &&
        match Hit(whole, from, text)
        case None => Stop(lines, whole, from, ending) == Some(ending)
        case Some(i) =>
          Stop(lines, whole, from, ending) == Stop(rest, whole, i + |text|, ending) &&
          FinalMark(whole, from, Texts(lines)) == FinalMark(whole, i + |text|, Texts(rest)))
      case other =>
        Stop(lines, whole, from, ending) == Stop(rest, whole, from, ending) &&
        FinalMark(whole, from, Texts(lines)) == FinalMark(whole, from, Texts(rest)) &&
        Sent(lines) == (if other.Send? then other.bytes else []) + Sent(rest)
  {
    hide Hit, ReadLine;
    var rest := lines[1..];
    match ReadLine(lines[0])
    case Await(text) => assert ([text] + Texts(rest))[1..] == Texts(rest);
    case _ =>
  }

  lemma {:induction false} NoLines(whole: Text, from: nat, ending: nat)
    ensures Stop([], whole, from, ending) == None && Texts([]) == [] && Sent([]) == []
    ensures FinalMark(whole, from, []) == Some(from)
  {
  }

  class Terminal {
    /** The transcript's buffer; none before the first read. */
    var out: array?<byte>
    var outLen: nat
    var mark: nat
    var sent: Text
    var feed: Feed

    ghost predicate Valid()
      reads this, out
    {
      mark <= outLen && (out == null <==> outLen == 0) && (out != null ==> outLen < out.Length && out[outLen] == NUL)
    }

    function Transcript(): Text
      requires Valid()
      reads this, out
    {
      if out == null then [] else out[..outLen]
    }

    /** The transcript of the whole run, however the command's output is cut into reads. */
    ghost function Whole(): Text
      requires Valid()
      reads this, out
    {
      Transcript() + Coming(feed)
    }

    constructor (events: Feed)
      ensures Valid() && out == null && Transcript() == [] && mark == 0 && sent == [] && feed == events
    {
      out, outLen, mark, sent, feed := null, 0, 0, [], events;
    }

    /** The buffer half of pump: append what was read, and keep a NUL after it. */
    method Append(bytes: Text)
      requires Valid() && bytes != []
      modifies this`out, this`outLen, out
      ensures Valid() && (out == old(out) || (out != null && fresh(out)))
      ensures Transcript() == old(Transcript()) + bytes
    {
      ghost var was := Transcript();
      var n := |bytes|;
      if out == null || outLen + n + 1 > out.Length {
        var grown := new byte[(outLen + n + 1) * 2];
        if out != null {
          forall i | 0 <= i < outLen { grown[i] := out[i]; }
        }
        out := grown;
      }
      assert out[..outLen] == was;
      forall i | 0 <= i < n { out[outLen + i] := bytes[i]; }
      outLen := outLen + n;
      out[outLen] := NUL;
      assert out[..outLen] == was + bytes;
    }

    /** The events half of pump; an expired deadline is seen before pump is called. */
    method Pump() returns (turn: Turn)
      requires Valid() && !(feed != [] && feed[0].Expired?)
      modifies this`out, this`outLen, this`feed, out
      ensures Valid() && (out == old(out) || (out != null && fresh(out)))
      ensures Whole() == old(Whole()) && Ending(feed) == Ending(old(feed))
      ensures turn.Going? ==> |feed| < |old(feed)|
      ensures !turn.Going? ==> Transcript() == Whole() == old(Transcript())
      ensures turn.Failed? ==> Ending(feed) == USAGE
      ensures turn.Closed? ==> Ending(feed) == CLOSED
    {
      if feed == [] { return Closed; }
      match feed[0] {
        case PollFailed => return Failed;
        case Output(bytes) =>
          ghost var was, rest := Transcript(), Coming(feed[1..]);
          Append(bytes);
          assert was + (bytes + rest) == was + bytes + rest;
        case Quiet =>
        case Expired => assert false;
      }
      feed := feed[1..];
      return Going;
    }

    /** Wait for a text after the previous match: None once it is matched, or the status the run fails with. */
    method Expect(text: Text) returns (stop: Option<nat>)
      requires Valid()
      modifies this`out, this`outLen, this`mark, this`feed, out
      ensures Valid() && (out == old(out) || (out != null && fresh(out)))
      ensures Whole() == old(Whole()) && Ending(feed) == Ending(old(feed))
      ensures
        match Hit(Whole(), old(mark), text)
        case Some(i) => stop == None && mark == i + |text|
        case None => stop == Some(Ending(feed)) && mark == old(mark) && Transcript() == Whole()
    {
      hide Hit, Ending;
      while true
        invariant Valid() && (out == old(out) || (out != null && fresh(out)))
        invariant Whole() == old(Whole()) && Ending(feed) == Ending(old(feed)) && mark == old(mark)
        decreases |feed|
      {
        ghost var seen := Transcript();
        if outLen >= mark + |text| {
          var hit := if out == null then None else First(out[..outLen], mark, text);
          assert hit == Hit(seen, mark, text) by { HitIn(seen, mark, text); }
          if hit.Some? {
            HitStays(seen, Coming(feed), mark, text);
            mark := hit.value + |text|;
            return None;
          }
        } else {
          TooShort(seen, mark, text);
        }
        if feed != [] && feed[0].Expired? {
          AtExpiry(feed);
          assert seen + [] == seen;
          return Some(TIMED_OUT);
        }
        var turn := Pump();
        if turn.Closed? { return Some(CLOSED); }
        if turn.Failed? { return Some(USAGE); }
      }
    }

    /** One line of the script. */
    method PlayLine(line: Text) returns (stop: Option<nat>)
      requires Valid()
      modifies this, out
      ensures Valid() && (out == old(out) || (out != null && fresh(out)))
      ensures Whole() == old(Whole()) && Ending(feed) == Ending(old(feed))
      ensures
        match ReadLine(line)
        case Nothing => stop == None && mark == old(mark) && sent == old(sent)
        case Send(t) => stop == None && mark == old(mark) && sent == old(sent) + t
        case Broken => stop == Some(USAGE)
        case Await(text) => (
          sent == old(sent) &&
          match Hit(Whole(), old(mark), text)
          case Some(i) => stop == None && mark == i + |text|
          case None => stop == Some(Ending(feed)))
    {
      hide Hit, Ending, Unescaped, CString, Coming;
      if line == [] || line[0] == HASH { return None; }
      var buf := new byte[|line| + 1];
      if SEND <= line {
        var n := Unescape(CString(line[|SEND|..]), buf);
        if n.Err? { return Some(USAGE); }
        sent := sent + buf[..n.value];
      } else if EXPECT <= line {
        var n := Unescape(CString(line[|EXPECT|..]), buf);
        if n.Err? { return Some(USAGE); }
        buf[n.value] := NUL;
        stop := Expect(buf[..n.value]);
        return;
      } else {
        return Some(USAGE);
      }
      return None;
    }

    /** The script loop of main: None once every line is carried out, or the status the run fails with. */
    method Play(lines: seq<Text>) returns (stop: Option<nat>)
      requires Valid()
      modifies this, out
      ensures Valid() && (out == old(out) || (out != null && fresh(out)))
      ensures Whole() == old(Whole()) && Ending(feed) == Ending(old(feed))
      ensures stop == Stop(lines, Whole(), old(mark), Ending(feed))
      ensures stop == None ==>
        FinalMark(Whole(), old(mark), Texts(lines)) == Some(mark) && sent == old(sent) + Sent(lines)
    {
      hide Hit, Ending, Coming, ReadLine, Stop, FinalMark, Texts, Sent;
      ghost var whole, ending, from := Whole(), Ending(feed), mark;
      var i := 0;
      assert lines[0..] == lines;
      while i < |lines|
        invariant 0 <= i <= |lines|
        invariant Valid() && (out == old(out) || (out != null && fresh(out)))
        invariant Whole() == whole && Ending(feed) == ending
        invariant Stop(lines, whole, from, ending) == Stop(lines[i..], whole, mark, ending)
        invariant FinalMark(whole, from, Texts(lines)) == FinalMark(whole, mark, Texts(lines[i..]))
        invariant sent + Sent(lines[i..]) == old(sent) + Sent(lines)
      {
        NextLine(lines[i..], whole, mark, ending);
        assert lines[i..][1..] == lines[i + 1..];
        stop := PlayLine(lines[i]);
        if stop.Some? { return; }
        i := i + 1;
      }
      NoLines(whole, mark, ending);
      assert lines[i..] == [];
      return None;
    }

    /** main after its arguments are read: play the script, drain the terminal, wait for the command. The wait ends with
        the command's own status, or with None when the deadline passes first. */
    method Run(lines: seq<Text>, exit: Option<nat>) returns (status: nat, printed: Text)
      requires Valid() && mark == 0
      modifies this, out
      ensures Valid() && printed == Transcript() && printed <= old(Whole())
      ensures
        match Stop(lines, old(Whole()), 0, Ending(old(feed)))
        case Some(s) => status == s
        case None =>
          printed == old(Whole()) && sent == old(sent) + Sent(lines) &&
          status == (if Ending(old(feed)) == USAGE then USAGE else match exit case Some(s) => s case None => TIMED_OUT)
    {
      hide Hit, Stop;
      var stop := Play(lines);
      if stop.Some? { return stop.value, Transcript(); }
      while true
        invariant Valid() && (out == old(out) || (out != null && fresh(out)))
        invariant Whole() == old(Whole()) && Ending(feed) == Ending(old(feed)) && sent == old(sent) + Sent(lines)
        decreases |feed|
      {
        if feed != [] && feed[0].Expired? { break; }
        var turn := Pump();
        if turn.Failed? { return USAGE, Transcript(); }
        if turn.Closed? { break; }
      }
      assert Transcript() + [] == Transcript();
      status := match exit case Some(s) => s case None => TIMED_OUT;
      printed := Transcript();
    }
  }
}

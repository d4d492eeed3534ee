/** DNS names on the wire (buildroot-resolver.py, encode_name and decode_name; RFC 1035, sections 3.1 and 4.1.4). */
module DnsNames {
  import opened Prelude

  datatype NameError = BadLabel | TruncatedName | BadPointer

  /** The pointers decode_name follows before it gives up. */
  const MAX_JUMPS: nat := 33

  // ---- Text ----

  function StripDots(s: string): string {
    if s != [] && s[|s| - 1] == '.' then StripDots(s[..|s| - 1]) else s
  }

  /** str.split('.'): never empty, and a leading or doubled dot gives an empty label. */
  function Split(s: string): (labels: seq<string>)
    ensures labels != []
  {
    if s == [] then [""]
    else
      var rest := Split(s[1..]);
      if s[0] == '.' then [""] + rest else [[s[0]] + rest[0]] + rest[1..]
  }

  /** '.'.join. */
  function Join(labels: seq<string>): string {
    if labels == [] then ""
    else if |labels| == 1 then labels[0]
    else labels[0] + "." + Join(labels[1..])
  }

  lemma {:induction false} JoinSplit(s: string)
    ensures Join(Split(s)) == s
  {
    if s != [] {
      var rest := Split(s[1..]);
      JoinSplit(s[1..]);
      if s[0] == '.' {
        assert ([""] + rest)[1..] == rest;
        assert Join([""] + rest) == "" + "." + Join(rest);
      } else {
        var labels := [[s[0]] + rest[0]] + rest[1..];
        assert labels[1..] == rest[1..];
        assert Join(labels) == [s[0]] + Join(rest);
      }
      assert s == [s[0]] + s[1..];
    }
  }

  predicate Ascii(s: string) {
    forall i :: 0 <= i < |s| ==> s[i] < 128 as char
  }

  function AsciiBytes(s: string): seq<byte>
    requires Ascii(s)
  {
    seq(|s|, i requires 0 <= i < |s| => s[i] as int)
  }

  /** bytes.decode('ascii', 'replace'). */
  function AsciiText(s: seq<byte>): string {
    seq(|s|, i requires 0 <= i < |s| => if s[i] < 128 then s[i] as char else '\U{FFFD}')
  }

  function Texts(labels: seq<seq<byte>>): seq<string> {
    seq(|labels|, i requires 0 <= i < |labels| => AsciiText(labels[i]))
  }

  // ---- Encoding ----

  /** A label's bytes; `idna` encodes the labels that are not ASCII. */
  function RawLabel(part: string, idna: string -> seq<byte>): seq<byte> {
    if Ascii(part) then AsciiBytes(part) else idna(part)
  }

  function EncodeLabels(labels: seq<string>, idna: string -> seq<byte>): Result<seq<byte>, NameError> {
    if labels == [] then Ok([])
    else
      var raw := RawLabel(labels[0], idna);
      if !(0 < |raw| < 64) then Err(BadLabel)
      else
        match EncodeLabels(labels[1..], idna)
        case Err(e) => Err(e)
        case Ok(rest) => Ok([|raw|] + raw + rest)
  }

  function LabelsOf(name: string): seq<string> {
    if StripDots(name) == "" then [] else Split(StripDots(name))
  }

  function Encoded(name: string, idna: string -> seq<byte>): Result<seq<byte>, NameError> {
    match EncodeLabels(LabelsOf(name), idna)
    case Err(e) => Err(e)
    case Ok(out) => Ok(out + [0])
  }

  function WithBytes(out: seq<byte>, r: Result<seq<byte>, NameError>): Result<seq<byte>, NameError> {
    if r.Err? then r else Ok(out + r.value)
  }

  method EncodeName(name: string, idna: string -> seq<byte>) returns (r: Result<seq<byte>, NameError>)
    ensures r == Encoded(name, idna)
  {
    var labels := LabelsOf(name);
    var out: seq<byte> := [];
    assert WithBytes(out, EncodeLabels(labels, idna)) == EncodeLabels(labels, idna) by {
      if EncodeLabels(labels, idna).Ok? {
        assert out + EncodeLabels(labels, idna).value == EncodeLabels(labels, idna).value;
      }
    }
    var i := 0;
    assert labels[0..] == labels;
    while i < |labels|
      invariant 0 <= i <= |labels|
      invariant EncodeLabels(labels, idna) == WithBytes(out, EncodeLabels(labels[i..], idna))
    {
      var raw := RawLabel(labels[i], idna);
      assert labels[i..][1..] == labels[i + 1..];
      if !(0 < |raw| < 64) {
        return Err(BadLabel);
      }
      ghost var later := EncodeLabels(labels[i + 1..], idna);
      assert later.Ok? ==> out + ([|raw|] + raw + later.value) == out + ([|raw|] + raw) + later.value;
      out := out + ([|raw|] + raw);
      i := i + 1;
    }
    assert out + [] == out;
    return Ok(out + [0]);
  }

  // ---- Decoding ----

  /** The labels read from pos, following at most `left` pointers. */
  function Walk(msg: seq<byte>, pos: nat, left: nat): Result<seq<seq<byte>>, NameError>
    decreases left, if pos <= |msg| then |msg| - pos else 0
  {
    if pos >= |msg| then Err(TruncatedName)
    else
      var n: int := msg[pos];
      if n >= 192 then
        if pos + 1 >= |msg| || left == 0 then Err(BadPointer)
        else Walk(msg, (n - 192) * 256 + msg[pos + 1], left - 1)
      else if n == 0 then Ok([])
      else if pos + 1 + n >= |msg| then Err(TruncatedName)
      else
        match Walk(msg, pos + 1 + n, left)
        case Err(e) => Err(e)
        case Ok(rest) => Ok([msg[pos + 1..pos + 1 + n]] + rest)
  }

  /** Where the name at pos ends: after its first pointer or its zero octet, whatever the pointer leads to. */
  function NameEnd(msg: seq<byte>, pos: nat): (end: Option<nat>)
    ensures end.Some? ==> pos < end.value <= |msg|
    decreases if pos <= |msg| then |msg| - pos else 0
  {
    if pos >= |msg| then None
    else
      var n: int := msg[pos];
      if n >= 192 then if pos + 1 >= |msg| then None else Some(pos + 2)
      else if n == 0 then Some(pos + 1)
      else NameEnd(msg, pos + 1 + n)
  }

  function WithLabels(labels: seq<seq<byte>>, r: Result<seq<seq<byte>>, NameError>): Result<seq<seq<byte>>, NameError> {
    if r.Err? then r else Ok(labels + r.value)
  }

  lemma {:induction false} NoLabels(r: Result<seq<seq<byte>>, NameError>)
    ensures WithLabels([], r) == r && Texts([]) == []
  {
    if r.Ok? { assert [] + r.value == r.value; }
  }

  lemma {:induction false} LabelsDone(raw: seq<seq<byte>>)
    ensures WithLabels(raw, Ok([])) == Ok(raw)
  {
    assert raw + [] == raw;
  }

  lemma {:induction false} TextsSnoc(raw: seq<seq<byte>>, last: seq<byte>)
    ensures Texts(raw + [last]) == Texts(raw) + [AsciiText(last)]
  {
  }

  /** Reading one label, cut short at the end of the message, where the next step fails. */
  lemma {:induction false} LabelStep(msg: seq<byte>, pos: nat, left: nat, raw: seq<seq<byte>>)
    requires pos < |msg| && 0 < msg[pos] < 192
    ensures var next := pos + 1 + msg[pos] as int;
      var stop := if next <= |msg| then next else |msg|;
      WithLabels(raw, Walk(msg, pos, left)) == WithLabels(raw + [msg[pos + 1..stop]], Walk(msg, next, left)) &&
      NameEnd(msg, pos) == NameEnd(msg, next)
  {
    var next := pos + 1 + msg[pos] as int;
    var stop := if next <= |msg| then next else |msg|;
    var later := Walk(msg, next, left);
    if next < |msg| && later.Ok? {
      assert raw + ([msg[pos + 1..stop]] + later.value) == raw + [msg[pos + 1..stop]] + later.value;
    }
  }

  /** What the octet at pos decides, when it starts no label. */
  lemma {:induction false} OctetStep(msg: seq<byte>, pos: nat, left: nat)
    ensures pos >= |msg| ==> Walk(msg, pos, left) == Err(TruncatedName)
    ensures pos < |msg| && msg[pos] == 0 ==> Walk(msg, pos, left) == Ok([]) && NameEnd(msg, pos) == Some(pos + 1)
    ensures pos < |msg| && msg[pos] >= 192 ==>
      if pos + 1 >= |msg| || left == 0 then Walk(msg, pos, left) == Err(BadPointer)
      else
        NameEnd(msg, pos) == Some(pos + 2) &&
        Walk(msg, pos, left) == Walk(msg, (msg[pos] as int - 192) * 256 + msg[pos + 1] as int, left - 1)
  {
  }

  method DecodeName(msg: seq<byte>, start: nat) returns (r: Result<(string, nat), NameError>)
    ensures r.Ok? <==> Walk(msg, start, MAX_JUMPS).Ok?
    ensures r.Err? ==> r.error == Walk(msg, start, MAX_JUMPS).error
    ensures r.Ok? ==>
      r.value.0 == Join(Texts(Walk(msg, start, MAX_JUMPS).value)) && Some(r.value.1) == NameEnd(msg, start)
  {
    hide Texts, Join, AsciiText, Walk, NameEnd;
    var pos: nat, jumps: nat, end: Option<nat> := start, 0, None;
    var labels: seq<string> := [];
    ghost var raw: seq<seq<byte>> := [];
    NoLabels(Walk(msg, start, MAX_JUMPS));
    while true
      invariant jumps <= MAX_JUMPS && labels == Texts(raw)
      invariant Walk(msg, start, MAX_JUMPS) == WithLabels(raw, Walk(msg, pos, MAX_JUMPS - jumps))
      invariant if end.None? then NameEnd(msg, start) == NameEnd(msg, pos) else NameEnd(msg, start) == end
      decreases MAX_JUMPS - jumps, if pos <= |msg| then |msg| - pos else 0
    {
      OctetStep(msg, pos, MAX_JUMPS - jumps);
      if pos >= |msg| {
        return Err(TruncatedName);
      }
      var n: int := msg[pos];
      if n >= 192 {
        if pos + 1 >= |msg| || jumps > 32 {
          return Err(BadPointer);
        }
        if end.None? { end := Some(pos + 2); }
        pos := (n - 192) * 256 + msg[pos + 1];
        jumps := jumps + 1;
        continue;
      }
      if n == 0 {
        LabelsDone(raw);
        return Ok((Join(labels), if end.Some? then end.value else pos + 1));
      }
      // A slice past the end of the message is cut short; the next turn then fails.
      var stop := if pos + 1 + n <= |msg| then pos + 1 + n else |msg|;
      labels := labels + [AsciiText(msg[pos + 1..stop])];
      LabelStep(msg, pos, MAX_JUMPS - jumps, raw);
      TextsSnoc(raw, msg[pos + 1..stop]);
      raw := raw + [msg[pos + 1..stop]];
      pos := pos + 1 + n;
    }
  }

  // ---- The expansion RFC 1035 defines ----

  /** The octets at pos expand to the labels through `hops` pointers; a length octet is below `longest`. With 64 this is
      section 4.1.4 of RFC 1035, which reserves the lengths from 64 to 191 and sets no bound on pointers. */
  predicate Expands(msg: seq<byte>, pos: nat, labels: seq<seq<byte>>, hops: nat, longest: nat)
    decreases hops, |labels|
  {
    pos < |msg| &&
    var n: int := msg[pos];
    if n == 0 then labels == [] && hops == 0
    else if n >= 192 then
      hops > 0 && pos + 1 < |msg| && Expands(msg, (n - 192) * 256 + msg[pos + 1], labels, hops - 1, longest)
    else
      n < longest && labels != [] && pos + 1 + n <= |msg| && labels[0] == msg[pos + 1..pos + 1 + n] &&
      Expands(msg, pos + 1 + n, labels[1..], hops, longest)
  }

  lemma {:induction false} WalkExpands(msg: seq<byte>, pos: nat, left: nat) returns (hops: nat)
    requires Walk(msg, pos, left).Ok?
    ensures hops <= left && Expands(msg, pos, Walk(msg, pos, left).value, hops, 192)
    decreases left, if pos <= |msg| then |msg| - pos else 0
  {
    var n: int := msg[pos];
    if n >= 192 {
      hops := WalkExpands(msg, (n - 192) * 256 + msg[pos + 1], left - 1);
      hops := hops + 1;
    } else if n == 0 {
      hops := 0;
    } else {
      hops := WalkExpands(msg, pos + 1 + n, left);
      var rest := Walk(msg, pos + 1 + n, left).value;
      assert ([msg[pos + 1..pos + 1 + n]] + rest)[1..] == rest;
    }
  }

  lemma {:induction false} ExpandsWalk(msg: seq<byte>, pos: nat, labels: seq<seq<byte>>, hops: nat, left: nat)
    requires Expands(msg, pos, labels, hops, 192)
    ensures hops <= left ==> Walk(msg, pos, left) == Ok(labels)
    ensures hops > left ==> Walk(msg, pos, left) == Err(BadPointer)
    decreases hops, |labels|
  {
    var n: int := msg[pos];
    if n >= 192 {
      if left > 0 { ExpandsWalk(msg, (n - 192) * 256 + msg[pos + 1], labels, hops - 1, left - 1); }
    } else if n > 0 {
      ExpandsWalk(msg, pos + 1 + n, labels[1..], hops, left);
      assert labels == [labels[0]] + labels[1..];
    }
  }

  lemma {:induction false} ShortLabels(msg: seq<byte>, pos: nat, labels: seq<seq<byte>>, hops: nat)
    ensures Expands(msg, pos, labels, hops, 64) <==>
      Expands(msg, pos, labels, hops, 192) && forall i :: 0 <= i < |labels| ==> |labels[i]| < 64
    decreases hops, |labels|
  {
    if pos < |msg| {
      var n: int := msg[pos];
      if n >= 192 {
        if hops > 0 && pos + 1 < |msg| { ShortLabels(msg, (n - 192) * 256 + msg[pos + 1], labels, hops - 1); }
      } else if n > 0 && labels != [] && pos + 1 + n <= |msg| {
        ShortLabels(msg, pos + 1 + n, labels[1..], hops);
        assert forall i :: 0 <= i < |labels| - 1 ==> labels[1..][i] == labels[i + 1];
        assert forall i :: 0 < i < |labels| ==> labels[i] == labels[1..][i - 1];
      }
    }
  }

  /** What decode_name reads: the labels, through at most 33 pointers. */
  function Decoded(msg: seq<byte>, pos: nat): Result<seq<seq<byte>>, NameError> { Walk(msg, pos, MAX_JUMPS) }

  predicate ExpandsThrough(msg: seq<byte>, pos: nat, labels: seq<seq<byte>>, hops: nat, longest: nat) {
    Expands(msg, pos, labels, hops, longest)
  }

  /** decode_name reads exactly the names that expand through at most 33 pointers, lengths from 64 to 191 included. Any
      cycle of pointers is an error: it has no expansion. */
  lemma {:induction false} DecodesExpansions(msg: seq<byte>, pos: nat, labels: seq<seq<byte>>)
    ensures Decoded(msg, pos) == Ok(labels) <==>
      exists hops: nat :: hops <= MAX_JUMPS && ExpandsThrough(msg, pos, labels, hops, 192)
  {
    if Decoded(msg, pos) == Ok(labels) {
      var hops := WalkExpands(msg, pos, MAX_JUMPS);
      assert ExpandsThrough(msg, pos, labels, hops, 192);
    }
    forall hops: nat | hops <= MAX_JUMPS && ExpandsThrough(msg, pos, labels, hops, 192)
      ensures Decoded(msg, pos) == Ok(labels)
    {
      ExpandsWalk(msg, pos, labels, hops, MAX_JUMPS);
    }
  }

  // ---- Where decode_name and RFC 1035 agree ----

  /** The octets from pos run to a zero octet through `hops` pointers, within the message; `reserved` says whether
      a length octet that RFC 1035 reserves is met on the way. */
  predicate Passes(msg: seq<byte>, pos: nat, hops: nat, reserved: bool)
    decreases hops, if pos <= |msg| then |msg| - pos else 0
  {
    pos < |msg| &&
    var n: int := msg[pos];
    if n == 0 then hops == 0 && !reserved
    else if n >= 192 then
      hops > 0 && pos + 1 < |msg| && Passes(msg, (n - 192) * 256 + msg[pos + 1], hops - 1, reserved)
    else if n >= 64 then
      reserved && pos + 1 + n < |msg| && (Passes(msg, pos + 1 + n, hops, true) || Passes(msg, pos + 1 + n, hops, false))
    else pos + 1 + n < |msg| && Passes(msg, pos + 1 + n, hops, reserved)
  }

  lemma {:induction false} PassesOnce(msg: seq<byte>, pos: nat, hops: nat, reserved: bool, hops': nat, reserved': bool)
    requires Passes(msg, pos, hops, reserved) && Passes(msg, pos, hops', reserved')
    ensures hops == hops' && reserved == reserved'
    decreases hops, if pos <= |msg| then |msg| - pos else 0
  {
    var n: int := msg[pos];
    if n >= 192 {
      PassesOnce(msg, (n - 192) * 256 + msg[pos + 1], hops - 1, reserved, hops' - 1, reserved');
    } else if n >= 64 {
      var next := pos + 1 + n;
      var r := Passes(msg, next, hops, true);
      var r' := Passes(msg, next, hops', true);
      PassesOnce(msg, next, hops, r, hops', r');
    } else if n > 0 {
      PassesOnce(msg, pos + 1 + n, hops, reserved, hops', reserved');
    }
  }

  predicate AllShort(labels: seq<seq<byte>>) { forall i :: 0 <= i < |labels| ==> |labels[i]| < 64 }

  lemma {:induction false} ExpandsPasses(msg: seq<byte>, pos: nat, labels: seq<seq<byte>>, hops: nat)
    requires Expands(msg, pos, labels, hops, 192)
    ensures Passes(msg, pos, hops, !AllShort(labels))
    decreases hops, |labels|
  {
    var n: int := msg[pos];
    if n >= 192 {
      ExpandsPasses(msg, (n - 192) * 256 + msg[pos + 1], labels, hops - 1);
    } else if n > 0 {
      ExpandsPasses(msg, pos + 1 + n, labels[1..], hops);
      assert AllShort(labels) <==> n < 64 && AllShort(labels[1..]) by {
        assert |labels[0]| == n;
        assert forall i :: 0 < i < |labels| ==> labels[i] == labels[1..][i - 1];
        assert forall i :: 0 <= i < |labels| - 1 ==> labels[1..][i] == labels[i + 1];
      }
    }
  }

  lemma {:induction false} PassesExpands(msg: seq<byte>, pos: nat, hops: nat, reserved: bool)
    returns (labels: seq<seq<byte>>)
    requires Passes(msg, pos, hops, reserved)
    ensures Expands(msg, pos, labels, hops, 192)
    decreases hops, if pos <= |msg| then |msg| - pos else 0
  {
    var n: int := msg[pos];
    labels := [];
    if n >= 192 {
      labels := PassesExpands(msg, (n - 192) * 256 + msg[pos + 1], hops - 1, reserved);
    } else if n > 0 {
      var next := pos + 1 + n;
      var rest := PassesExpands(msg, next, hops, if n >= 64 then Passes(msg, next, hops, true) else reserved);
      labels := [msg[pos + 1..next]] + rest;
      assert labels[1..] == rest;
    }
  }

  /** The name at pos is these labels by section 4.1.4 of RFC 1035. */
  ghost predicate Standard(msg: seq<byte>, pos: nat, labels: seq<seq<byte>>) {
    exists hops: nat :: ExpandsThrough(msg, pos, labels, hops, 64)
  }

  /** decode_name gives the standard's labels, and no others. */
  ghost predicate Agrees(msg: seq<byte>, pos: nat) {
    forall labels :: Decoded(msg, pos) == Ok(labels) <==> Standard(msg, pos, labels)
  }

  /** A reserved length octet is met, and the pointers are few enough to be followed. */
  ghost predicate ReadsReserved(msg: seq<byte>, pos: nat) {
    exists hops: nat :: hops <= MAX_JUMPS && Passes(msg, pos, hops, true)
  }

  /** More pointers are met than are followed, and no reserved length octet. */
  ghost predicate TooManyPointers(msg: seq<byte>, pos: nat) {
    exists hops: nat :: hops > MAX_JUMPS && Passes(msg, pos, hops, false)
  }

  /** decode_name agrees with the standard on a message exactly when its octets neither pass a reserved length within 33
      pointers nor run through more than 33 pointers without one. */
  lemma {:induction false} AgreesExactly(msg: seq<byte>, pos: nat)
    ensures Agrees(msg, pos) <==> !ReadsReserved(msg, pos) && !TooManyPointers(msg, pos)
  {
    hide Walk, Expands, Passes;
    if ReadsReserved(msg, pos) {
      var hops: nat :| hops <= MAX_JUMPS && Passes(msg, pos, hops, true);
      var labels := PassesExpands(msg, pos, hops, true);
      ExpandsWalk(msg, pos, labels, hops, MAX_JUMPS);
      forall h: nat ensures !ExpandsThrough(msg, pos, labels, h, 64) {
        if ExpandsThrough(msg, pos, labels, h, 64) {
          ShortLabels(msg, pos, labels, h);
          ExpandsPasses(msg, pos, labels, h);
          PassesOnce(msg, pos, hops, true, h, false);
        }
      }
      assert Decoded(msg, pos) == Ok(labels) && !Standard(msg, pos, labels);
    }
    if TooManyPointers(msg, pos) {
      var hops: nat :| hops > MAX_JUMPS && Passes(msg, pos, hops, false);
      var labels := PassesExpands(msg, pos, hops, false);
      ExpandsPasses(msg, pos, labels, hops);
      PassesOnce(msg, pos, hops, false, hops, !AllShort(labels));
      ShortLabels(msg, pos, labels, hops);
      ExpandsWalk(msg, pos, labels, hops, MAX_JUMPS);
      assert ExpandsThrough(msg, pos, labels, hops, 64);
      assert Decoded(msg, pos).Err? && Standard(msg, pos, labels);
    }
    if !ReadsReserved(msg, pos) && !TooManyPointers(msg, pos) {
      forall labels ensures Decoded(msg, pos) == Ok(labels) <==> Standard(msg, pos, labels) {
        AgreesOn(msg, pos, labels);
      }
    }
  }

  lemma {:induction false} AgreesOn(msg: seq<byte>, pos: nat, labels: seq<seq<byte>>)
    requires !ReadsReserved(msg, pos) && !TooManyPointers(msg, pos)
    ensures Decoded(msg, pos) == Ok(labels) <==> Standard(msg, pos, labels)
  {
    hide Walk, Expands, Passes;
    if Decoded(msg, pos) == Ok(labels) {
      var hops := WalkExpands(msg, pos, MAX_JUMPS);
      ExpandsPasses(msg, pos, labels, hops);
      ShortLabels(msg, pos, labels, hops);
      assert ExpandsThrough(msg, pos, labels, hops, 64);
    }
    if Standard(msg, pos, labels) {
      var hops: nat :| ExpandsThrough(msg, pos, labels, hops, 64);
      ShortLabels(msg, pos, labels, hops);
      ExpandsPasses(msg, pos, labels, hops);
      ExpandsWalk(msg, pos, labels, hops, MAX_JUMPS);
    }
  }

  /** Pointers one after another, each to the next, and then a zero octet. */
  function Chain(n: nat): (msg: seq<byte>)
    requires n < 100
    ensures |msg| == 2 * n + 1
  {
    seq(2 * n + 1, i requires 0 <= i < 2 * n + 1 => if i == 2 * n then 0 else if i % 2 == 0 then 192 else i + 1)
  }

  lemma {:induction false} ChainExpands(n: nat, k: nat)
    requires k <= n < 100
    ensures Expands(Chain(n), 2 * (n - k), [], k, 64) && Passes(Chain(n), 2 * (n - k), k, false)
    decreases k
  {
    if k > 0 { ChainExpands(n, k - 1); }
  }

  /** A root name behind 34 pointers: the standard expands it, and decode_name refuses it. */
  lemma {:induction false} LongChainIsRefused()
    ensures var msg := Chain(34);
      Standard(msg, 0, []) && Decoded(msg, 0) == Err(BadPointer) && TooManyPointers(msg, 0)
  {
    ChainExpands(34, 34);
    hide Chain;
    ShortLabels(Chain(34), 0, [], 34);
    ExpandsWalk(Chain(34), 0, [], 34, MAX_JUMPS);
    assert ExpandsThrough(Chain(34), 0, [], 34, 64);
  }

  /** A length octet that RFC 1035 reserves is read as a length: this message decodes and has no expansion. */
  lemma {:induction false} ReservedLengthIsRead() returns (msg: seq<byte>)
    ensures Decoded(msg, 0).Ok? && ReadsReserved(msg, 0)
    ensures forall labels :: !Standard(msg, 0, labels)
  {
    var part: seq<byte> := seq(64, i => 97);
    msg := [64] + part + [0];
    assert msg[0] == 64 && msg[65] == 0;
    assert Walk(msg, 65, MAX_JUMPS) == Ok([]);
    assert Passes(msg, 65, 0, false) && Passes(msg, 0, 0, true);
    forall labels, hops: nat ensures !ExpandsThrough(msg, 0, labels, hops, 64) {
      assert msg[0] == 64;
    }
  }

  /** The end a name is given depends on its own octets alone. */
  lemma {:induction false} EndIsLocal(msg: seq<byte>, other: seq<byte>, pos: nat)
    requires NameEnd(msg, pos).Some?
    requires var end := NameEnd(msg, pos).value; end <= |other| && msg[pos..end] == other[pos..end]
    ensures NameEnd(other, pos) == NameEnd(msg, pos)
    decreases |msg| - pos
  {
    var end := NameEnd(msg, pos).value;
    assert msg[pos] == msg[pos..end][0] == other[pos..end][0] == other[pos];
    var n: int := msg[pos];
    if 0 < n < 192 {
      assert msg[pos + 1 + n..end] == msg[pos..end][1 + n..] == other[pos..end][1 + n..] == other[pos + 1 + n..end];
      EndIsLocal(msg, other, pos + 1 + n);
    }
  }

  // ---- Round trip ----

  lemma {:induction false} AsciiRoundTrip(s: string)
    requires Ascii(s)
    ensures AsciiText(AsciiBytes(s)) == s
  {
  }

  lemma {:induction false} LabelsRoundTrip(msg: seq<byte>, pos: nat, labels: seq<string>, idna: string -> seq<byte>,
      left: nat)
    requires EncodeLabels(labels, idna).Ok? && forall i :: 0 <= i < |labels| ==> Ascii(labels[i])
    requires At(msg, pos, EncodeLabels(labels, idna).value + [0])
    ensures NameEnd(msg, pos) == Some(pos + |EncodeLabels(labels, idna).value| + 1)
    ensures Walk(msg, pos, left).Ok? && Texts(Walk(msg, pos, left).value) == labels
    decreases |labels|
  {
    hide AsciiText, AsciiBytes, At, Texts, Walk, NameEnd;
    var out := EncodeLabels(labels, idna).value + [0];
    AtHead(msg, pos, out);
    OctetStep(msg, pos, left);
    NoLabels(Ok([]));
    if labels != [] {
      var raw, rest := AsciiBytes(labels[0]), EncodeLabels(labels[1..], idna).value;
      assert out == ([|raw|] + raw) + (rest + [0]);
      AtSplit(msg, pos, [|raw|] + raw, rest + [0]);
      var next := pos + 1 + |raw|;
      LabelsRoundTrip(msg, next, labels[1..], idna, left);
      ReadLabel(msg, pos, raw, left);
      TextsCons(raw, Walk(msg, next, left).value);
      AsciiRoundTrip(labels[0]);
      assert labels == [labels[0]] + labels[1..];
    }
  }

  lemma {:induction false} ReadLabel(msg: seq<byte>, pos: nat, raw: seq<byte>, left: nat)
    requires 0 < |raw| < 64 && At(msg, pos, [|raw|] + raw) && NameEnd(msg, pos + 1 + |raw|).Some?
    ensures NameEnd(msg, pos) == NameEnd(msg, pos + 1 + |raw|)
    ensures Walk(msg, pos + 1 + |raw|, left).Ok? ==>
      Walk(msg, pos, left) == Ok([raw] + Walk(msg, pos + 1 + |raw|, left).value)
  {
    AtSplit(msg, pos, [|raw|], raw);
    AtHead(msg, pos, [|raw|] + raw);
  }

  lemma {:induction false} TextsCons(raw: seq<byte>, rest: seq<seq<byte>>)
    ensures Texts([raw] + rest) == [AsciiText(raw)] + Texts(rest)
  {
  }

  lemma {:induction false} SplitAscii(s: string)
    requires Ascii(s)
    ensures forall i :: 0 <= i < |Split(s)| ==> Ascii(Split(s)[i])
  {
    if s != [] { SplitAscii(s[1..]); }
  }

  lemma {:induction false} StripAscii(s: string)
    requires Ascii(s)
    ensures Ascii(StripDots(s))
  {
    if s != [] && s[|s| - 1] == '.' { StripAscii(s[..|s| - 1]); }
  }

  /** Wherever an encoded ASCII name stands in a message, decoding it gives the name without its trailing dots, and its
      exact end. */
  lemma {:induction false} NameRoundTrip(msg: seq<byte>, pos: nat, name: string, idna: string -> seq<byte>)
    requires Ascii(name) && Encoded(name, idna).Ok?
    requires At(msg, pos, Encoded(name, idna).value)
    ensures Walk(msg, pos, MAX_JUMPS).Ok? && Join(Texts(Walk(msg, pos, MAX_JUMPS).value)) == StripDots(name)
    ensures NameEnd(msg, pos) == Some(pos + |Encoded(name, idna).value|)
  {
    StripAscii(name);
    SplitAscii(StripDots(name));
    LabelsRoundTrip(msg, pos, LabelsOf(name), idna, MAX_JUMPS);
    JoinSplit(StripDots(name));
  }
}

/** The MessagePack subset of resolvd's protocol (buildroot-resolver.py, pack and unpack). */
module MessagePack {
  import opened Prelude

  /** A Python value the protocol carries. Text is its UTF-8 encoding; a dictionary is its items in insertion order. */
  datatype Value =
    | Nil
    | Bool(b: bool)
    | Int(n: int)
    | Str(text: seq<byte>)
    | Bin(data: seq<byte>)
    | Arr(items: seq<Value>)
    | Map(pairs: seq<Pair>)

  datatype Pair = Pair(key: seq<byte>, value: Value)

  datatype Failure = Truncated | BadKey | BadText | Unsupported(b: byte)

  // ---- Bytes ----

  function BE(n: nat, w: nat): (s: seq<byte>)
    ensures |s| == w
  {
    if w == 0 then [] else BE(n / 256, w - 1) + [n % 256]
  }

  function FromBE(s: seq<byte>): nat {
    if s == [] then 0 else FromBE(s[..|s| - 1]) * 256 + s[|s| - 1]
  }

  function Pow256(w: nat): nat {
    if w == 0 then 1 else 256 * Pow256(w - 1)
  }

  lemma {:induction false} FromBEInvertsBE(n: nat, w: nat)
    requires n < Pow256(w)
    ensures FromBE(BE(n, w)) == n
  {
    if w > 0 {
      FromBEInvertsBE(n / 256, w - 1);
      assert BE(n, w)[..w - 1] == BE(n / 256, w - 1);
    }
  }

  lemma {:induction false} BEInvertsFromBE(s: seq<byte>)
    ensures FromBE(s) < Pow256(|s|) && BE(FromBE(s), |s|) == s
  {
    if s != [] {
      BEInvertsFromBE(s[..|s| - 1]);
      assert s == s[..|s| - 1] + [s[|s| - 1]];
    }
  }

  lemma {:induction false} Powers()
    ensures Pow256(1) == 0x100 && Pow256(2) == 0x1_0000 && Pow256(4) == 0x1_0000_0000
    ensures Pow256(8) == 0x1_0000_0000_0000_0000
  {
    assert Pow256(3) == 0x100_0000 && Pow256(5) == 0x100_0000_0000 && Pow256(6) == 0x1_0000_0000_0000;
    assert Pow256(7) == 0x100_0000_0000_0000;
  }

  predicate Tail(b: byte) { 0x80 <= b <= 0xbf }

  /** Well-formed UTF-8, as strict decoding accepts it (Table 3-7 of the Unicode Standard). */
  predicate Utf8(s: seq<byte>) {
    if s == [] then true
    else if s[0] < 0x80 then Utf8(s[1..])
    else if |s| >= 2 && 0xc2 <= s[0] <= 0xdf then Tail(s[1]) && Utf8(s[2..])
    else if |s| >= 3 && 0xe0 <= s[0] <= 0xef then
      Tail(s[1]) && Tail(s[2]) && (s[0] == 0xe0 ==> s[1] >= 0xa0) && (s[0] == 0xed ==> s[1] <= 0x9f) && Utf8(s[3..])
    else if |s| >= 4 && 0xf0 <= s[0] <= 0xf4 then
      Tail(s[1]) && Tail(s[2]) && Tail(s[3]) &&
      (s[0] == 0xf0 ==> s[1] >= 0x90) && (s[0] == 0xf4 ==> s[1] <= 0x8f) && Utf8(s[4..])
    else false
  }

  // ---- Encoding ----

  /** What every Python value of these types satisfies: text encodes to UTF-8, and a dictionary's keys differ. */
  predicate Proper(v: Value) {
    match v
    case Str(text) => Utf8(text)
    case Arr(items) => forall i :: 0 <= i < |items| ==> Proper(items[i])
    case Map(pairs) =>
      (forall i, j :: 0 <= i < j < |pairs| ==> pairs[i].key != pairs[j].key) &&
      forall i :: 0 <= i < |pairs| ==> Utf8(pairs[i].key) && Proper(pairs[i].value)
    case _ => true
  }

  /** The values pack encodes; it raises an error on any other. */
  predicate Packable(v: Value) {
    match v
    case Int(n) => 0 <= n < 0x1_0000_0000_0000_0000
    case Str(text) => |text| < 0x1_0000_0000
    case Bin(data) => |data| < 0x1_0000_0000
    case Arr(items) => |items| < 0x1_0000 && forall i :: 0 <= i < |items| ==> Packable(items[i])
    case Map(pairs) =>
      |pairs| < 0x1_0000 &&
      forall i :: 0 <= i < |pairs| ==> |pairs[i].key| < 0x1_0000_0000 && Packable(pairs[i].value)
    case _ => true
  }

  function IntBytes(n: nat): seq<byte> {
    if n < 0x80 then [n]
    else if n <= 0xff then [0xcc] + BE(n, 1)
    else if n <= 0xffff then [0xcd] + BE(n, 2)
    else if n <= 0xffff_ffff then [0xce] + BE(n, 4)
    else [0xcf] + BE(n, 8)
  }

  function StrHead(n: nat): seq<byte> {
    if n < 32 then [0xa0 + n]
    else if n <= 0xff then [0xd9] + BE(n, 1)
    else if n <= 0xffff then [0xda] + BE(n, 2)
    else [0xdb] + BE(n, 4)
  }

  function BinHead(n: nat): seq<byte> {
    if n <= 0xff then [0xc4] + BE(n, 1)
    else if n <= 0xffff then [0xc5] + BE(n, 2)
    else [0xc6] + BE(n, 4)
  }

  function ArrHead(n: nat): seq<byte> {
    if n < 16 then [0x90 + n] else [0xdc] + BE(n, 2)
  }

  function MapHead(n: nat): seq<byte> {
    if n < 16 then [0x80 + n] else [0xde] + BE(n, 2)
  }

  function Bytes(v: Value): seq<byte>
    requires Packable(v)
    decreases v, 1
  {
    match v
    case Nil => [0xc0]
    case Bool(b) => if b then [0xc3] else [0xc2]
    case Int(n) => IntBytes(n)
    case Str(text) => StrHead(|text|) + text
    case Bin(data) => BinHead(|data|) + data
    case Arr(items) => ArrHead(|items|) + ItemBytes(items)
    case Map(pairs) => MapHead(|pairs|) + PairBytes(pairs)
  }

  function ItemBytes(items: seq<Value>): seq<byte>
    requires forall i :: 0 <= i < |items| ==> Packable(items[i])
    decreases items, 0
  {
    if items == [] then [] else Bytes(items[0]) + ItemBytes(items[1..])
  }

  function PairBytes(pairs: seq<Pair>): seq<byte>
    requires forall i :: 0 <= i < |pairs| ==> |pairs[i].key| < 0x1_0000_0000 && Packable(pairs[i].value)
    decreases pairs, 0
  {
    if pairs == [] then []
    else
      assert pairs[0].value < pairs[0];
      StrHead(|pairs[0].key|) + pairs[0].key + Bytes(pairs[0].value) + PairBytes(pairs[1..])
  }

  /** Appending the i-th item's bytes leaves the rest to append. */
  lemma {:induction false} NextItem(out: seq<byte>, items: seq<Value>, i: nat)
    requires i < |items| && forall j :: 0 <= j < |items| ==> Packable(items[j])
    ensures out + Bytes(items[i]) + ItemBytes(items[i + 1..]) == out + ItemBytes(items[i..])
  {
    assert items[i..][1..] == items[i + 1..];
  }

  lemma {:induction false} NextPair(out: seq<byte>, pairs: seq<Pair>, i: nat)
    requires i < |pairs|
    requires forall j :: 0 <= j < |pairs| ==> |pairs[j].key| < 0x1_0000_0000 && Packable(pairs[j].value)
    ensures out + (StrHead(|pairs[i].key|) + pairs[i].key) + Bytes(pairs[i].value) + PairBytes(pairs[i + 1..]) ==
      out + PairBytes(pairs[i..])
  {
    hide Bytes, StrHead;
    assert pairs[i..][1..] == pairs[i + 1..];
  }

  lemma {:induction false} NoPairBytes(pairs: seq<Pair>)
    ensures pairs[0..] == pairs && pairs[|pairs|..] == [] && PairBytes([]) == []
  {
  }

  /** pack, appending to the buffer its caller passes. */
  class Packer {
    var out: seq<byte>

    constructor ()
      ensures out == []
    {
      out := [];
    }

    method Pack(v: Value) returns (ok: bool)
      modifies this
      ensures ok <==> Packable(v)
      ensures ok ==> out == old(out) + Bytes(v)
      ensures old(out) <= out
      decreases v, 1
    {
      ok := true;
      match v {
        case Nil => out := out + [0xc0];
        case Bool(b) => out := out + [if b then 0xc3 else 0xc2];
        case Int(n) => ok := PackInt(n);
        case Str(text) => ok := PackText(text);
        case Bin(data) => ok := PackBin(data);
        case Arr(items) => ok := PackItems(items);
        case Map(pairs) => ok := PackPairs(pairs);
      }
    }

    method PackInt(n: int) returns (ok: bool)
      modifies this
      ensures ok <==> 0 <= n < 0x1_0000_0000_0000_0000
      ensures ok ==> out == old(out) + IntBytes(n)
      ensures old(out) <= out
    {
      if n < 0 || n > 0xffff_ffff_ffff_ffff { return false; }
      if n < 0x80 { out := out + [n]; }
      else if n <= 0xff { out := out + ([0xcc] + BE(n, 1)); }
      else if n <= 0xffff { out := out + ([0xcd] + BE(n, 2)); }
      else if n <= 0xffff_ffff { out := out + ([0xce] + BE(n, 4)); }
      else { out := out + ([0xcf] + BE(n, 8)); }
      ok := true;
    }

    method PackBin(data: seq<byte>) returns (ok: bool)
      modifies this
      ensures ok <==> |data| < 0x1_0000_0000
      ensures ok ==> out == old(out) + (BinHead(|data|) + data)
      ensures old(out) <= out
    {
      var n := |data|;
      if n <= 0xff { out := out + ([0xc4] + BE(n, 1)); }
      else if n <= 0xffff { out := out + ([0xc5] + BE(n, 2)); }
      else if n <= 0xffff_ffff { out := out + ([0xc6] + BE(n, 4)); }
      else { return false; }
      assert old(out) + BinHead(n) + data == old(out) + (BinHead(n) + data);
      out := out + data;
      ok := true;
    }

    method PackItems(items: seq<Value>) returns (ok: bool)
      modifies this
      ensures ok <==> Packable(Arr(items))
      ensures ok ==> out == old(out) + (ArrHead(|items|) + ItemBytes(items))
      ensures old(out) <= out
      decreases items, 0
    {
      hide Bytes, BE;
      var n := |items|;
      if n < 16 { out := out + [0x90 + n]; }
      else if n <= 0xffff { out := out + ([0xdc] + BE(n, 2)); }
      else { return false; }
      ghost var start := out;
      ok := true;
      var i := 0;
      assert items[0..] == items;
      while i < |items|
        invariant 0 <= i <= |items| && old(out) <= out && ok
        invariant forall j :: 0 <= j < i ==> Packable(items[j])
        invariant Packable(Arr(items)) ==> out + ItemBytes(items[i..]) == start + ItemBytes(items)
      {
        if Packable(Arr(items)) { NextItem(out, items, i); }
        ok := Pack(items[i]);
        if !ok { return; }
        i := i + 1;
      }
      assert start + ItemBytes(items) == old(out) + (ArrHead(n) + ItemBytes(items));
    }

    method PackPairs(pairs: seq<Pair>) returns (ok: bool)
      modifies this
      ensures ok <==> Packable(Map(pairs))
      ensures ok ==> out == old(out) + (MapHead(|pairs|) + PairBytes(pairs))
      ensures old(out) <= out
      decreases pairs, 1
    {
      var n := |pairs|;
      if n < 16 { out := out + [0x80 + n]; }
      else if n <= 0xffff { out := out + ([0xde] + BE(n, 2)); }
      else { return false; }
      ghost var start := out;
      ok := PackEach(pairs);
      if ok { assert start + PairBytes(pairs) == old(out) + (MapHead(n) + PairBytes(pairs)); }
    }

    /** The loop over a dictionary's items. */
    method PackEach(pairs: seq<Pair>) returns (ok: bool)
      modifies this
      ensures ok <==> forall j :: 0 <= j < |pairs| ==> |pairs[j].key| < 0x1_0000_0000 && Packable(pairs[j].value)
      ensures ok ==> out == old(out) + PairBytes(pairs)
      ensures old(out) <= out
      decreases pairs, 0
    {
      hide Bytes, StrHead, Packable, PairBytes;
      ok := true;
      var i := 0;
      NoPairBytes(pairs);
      while i < |pairs|
        invariant 0 <= i <= |pairs| && old(out) <= out && ok
        invariant forall j :: 0 <= j < i ==> |pairs[j].key| < 0x1_0000_0000 && Packable(pairs[j].value)
        invariant (forall j :: 0 <= j < |pairs| ==> |pairs[j].key| < 0x1_0000_0000 && Packable(pairs[j].value)) ==>
          out + PairBytes(pairs[i..]) == old(out) + PairBytes(pairs)
      {
        assert pairs[i].value < pairs[i];
        if forall j :: 0 <= j < |pairs| ==> |pairs[j].key| < 0x1_0000_0000 && Packable(pairs[j].value) {
          NextPair(out, pairs, i);
        }
        ok := PackText(pairs[i].key);
        if !ok { return; }
        ok := Pack(pairs[i].value);
        if !ok { return; }
        i := i + 1;
      }
    }

    /** The str case of pack. */
    method PackText(text: seq<byte>) returns (ok: bool)
      modifies this
      ensures ok <==> |text| < 0x1_0000_0000
      ensures ok ==> out == old(out) + (StrHead(|text|) + text)
      ensures old(out) <= out
    {
      var n := |text|;
      if n < 32 { out := out + [0xa0 + n]; }
      else if n <= 0xff { out := out + ([0xd9] + BE(n, 1)); }
      else if n <= 0xffff { out := out + ([0xda] + BE(n, 2)); }
      else if n <= 0xffff_ffff { out := out + ([0xdb] + BE(n, 4)); }
      else { return false; }
      assert old(out) + StrHead(n) + text == old(out) + (StrHead(n) + text);
      out := out + text;
      ok := true;
    }
  }

  // ---- Decoding ----

  type Decoded = Result<(Value, nat), Failure>

  /** The width of the length or integer that follows a head byte, by its place in its group. */
  function Width(b: int): nat {
    match b
    case 0xc4 => 1 case 0xc5 => 2 case 0xc6 => 4
    case 0xcc => 1 case 0xcd => 2 case 0xce => 4 case 0xcf => 8
    case 0xd9 => 1 case 0xda => 2 case 0xdb => 4
    case 0xdc => 2 case 0xdd => 4
    case 0xde => 2 case 0xdf => 4
    case _ => 0
  }

  /** The next w bytes as a big-endian number, when the message holds them. */
  function Number(data: seq<byte>, pos: nat, w: nat): Option<nat> {
    if pos + w > |data| then None else Some(FromBE(data[pos..pos + w]))
  }

  function KeysOf(pairs: seq<Pair>): set<seq<byte>> { set i | 0 <= i < |pairs| :: pairs[i].key }

  function Decode(data: seq<byte>, pos: nat): (r: Decoded)
    ensures r.Ok? ==> pos < r.value.1 <= |data|
    decreases if pos <= |data| then |data| - pos else 0, 0, 0
  {
    if pos + 1 > |data| then Err(Truncated)
    else
      var b: int, p: nat := data[pos], pos + 1;
      if b < 0x80 then Ok((Int(b), p))
      else if b >= 0xe0 then Ok((Int(b - 0x100), p))
      else if 0x80 <= b <= 0x8f || b == 0xde || b == 0xdf then
        var n := if b <= 0x8f then Some(b - 0x80) else Number(data, p, Width(b));
        if n.None? then Err(Truncated)
        else
          match DecodePairs(data, p + Width(b), n.value, {})
          case Ok((pairs, end)) => Ok((Map(pairs), end))
          case Err(e) => Err(e)
      else if 0x90 <= b <= 0x9f || b == 0xdc || b == 0xdd then
        var n := if b <= 0x9f then Some(b - 0x90) else Number(data, p, Width(b));
        if n.None? then Err(Truncated)
        else
          match DecodeItems(data, p + Width(b), n.value)
          case Ok((items, end)) => Ok((Arr(items), end))
          case Err(e) => Err(e)
      else if 0xa0 <= b <= 0xbf || b == 0xd9 || b == 0xda || b == 0xdb then
        var n := if b <= 0xbf then Some(b - 0xa0) else Number(data, p, Width(b));
        if n.None? || p + Width(b) + n.value > |data| then Err(Truncated)
        else
          var text := data[p + Width(b)..p + Width(b) + n.value];
          if Utf8(text) then Ok((Str(text), p + Width(b) + n.value)) else Err(BadText)
      else if b == 0xc4 || b == 0xc5 || b == 0xc6 then
        var n := Number(data, p, Width(b));
        if n.None? || p + Width(b) + n.value > |data| then Err(Truncated)
        else Ok((Bin(data[p + Width(b)..p + Width(b) + n.value]), p + Width(b) + n.value))
      else if b == 0xc0 then Ok((Nil, p))
      else if b == 0xc2 || b == 0xc3 then Ok((Bool(b == 0xc3), p))
      else if b == 0xcc || b == 0xcd || b == 0xce || b == 0xcf then
        var n := Number(data, p, Width(b));
        if n.None? then Err(Truncated) else Ok((Int(n.value), p + Width(b)))
      else Err(Unsupported(b))
  }

  function DecodeItems(data: seq<byte>, pos: nat, n: nat): (r: Result<(seq<Value>, nat), Failure>)
    ensures r.Ok? ==> |r.value.0| == n && pos <= r.value.1 && (pos <= |data| || n > 0 ==> r.value.1 <= |data|)
    decreases if pos <= |data| then |data| - pos else 0, 1, n
  {
    if n == 0 then Ok(([], pos))
    else
      match Decode(data, pos)
      case Err(e) => Err(e)
      case Ok((item, p)) =>
        match DecodeItems(data, p, n - 1)
        case Err(e) => Err(e)
        case Ok((rest, end)) => Ok(([item] + rest, end))
  }

  /** The next n items of a dictionary that already has the keys `seen`. */
  function DecodePairs(data: seq<byte>, pos: nat, n: nat, seen: set<seq<byte>>): (r: Result<(seq<Pair>, nat), Failure>)
    ensures r.Ok? ==> |r.value.0| == n && pos <= r.value.1 && (pos <= |data| || n > 0 ==> r.value.1 <= |data|)
    decreases if pos <= |data| then |data| - pos else 0, 1, n
  {
    if n == 0 then Ok(([], pos))
    else
      match Decode(data, pos)
      case Err(e) => Err(e)
      case Ok((key, p)) =>
        if !key.Str? || key.text in seen then Err(BadKey)
        else
          match Decode(data, p)
          case Err(e) => Err(e)
          case Ok((value, q)) =>
            match DecodePairs(data, q, n - 1, seen + {key.text})
            case Err(e) => Err(e)
            case Ok((rest, end)) => Ok(([Pair(key.text, value)] + rest, end))
  }

  /** What is decoded before the rest. */
  function WithItems(items: seq<Value>, r: Result<(seq<Value>, nat), Failure>): Result<(seq<Value>, nat), Failure> {
    if r.Err? then r else Ok((items + r.value.0, r.value.1))
  }

  function WithPairs(pairs: seq<Pair>, r: Result<(seq<Pair>, nat), Failure>): Result<(seq<Pair>, nat), Failure> {
    if r.Err? then r else Ok((pairs + r.value.0, r.value.1))
  }

  /** unpack: every call has its own position, and the loops advance it. */
  method Unpack(data: seq<byte>, start: nat) returns (r: Decoded)
    ensures r == Decode(data, start)
    decreases if start <= |data| then |data| - start else 0, 0
  {
    hide DecodeItems, DecodePairs, Utf8, Number;
    var pos := start;
    if pos + 1 > |data| { return Err(Truncated); }
    var b: int := data[pos];
    pos := pos + 1;
    if b < 0x80 { return Ok((Int(b), pos)); }
    if b >= 0xe0 { return Ok((Int(b - 0x100), pos)); }
    if 0x80 <= b <= 0x8f || b == 0xde || b == 0xdf {
      var n: nat := b - 0x80;
      if b > 0x8f {
        var got := Number(data, pos, Width(b));
        if got.None? { return Err(Truncated); }
        n, pos := got.value, pos + Width(b);
      }
      var pairs := UnpackPairs(data, pos, n);
      return if pairs.Ok? then Ok((Map(pairs.value.0), pairs.value.1)) else Err(pairs.error);
    }
    if 0x90 <= b <= 0x9f || b == 0xdc || b == 0xdd {
      var n: nat := b - 0x90;
      if b > 0x9f {
        var got := Number(data, pos, Width(b));
        if got.None? { return Err(Truncated); }
        n, pos := got.value, pos + Width(b);
      }
      var items := UnpackItems(data, pos, n);
      return if items.Ok? then Ok((Arr(items.value.0), items.value.1)) else Err(items.error);
    }
    if 0xa0 <= b <= 0xbf || b == 0xd9 || b == 0xda || b == 0xdb {
      var n: nat := b - 0xa0;
      if b > 0xbf {
        var got := Number(data, pos, Width(b));
        if got.None? { return Err(Truncated); }
        n, pos := got.value, pos + Width(b);
      }
      if pos + n > |data| { return Err(Truncated); }
      var text := data[pos..pos + n];
      return if Utf8(text) then Ok((Str(text), pos + n)) else Err(BadText);
    }
    if b == 0xc4 || b == 0xc5 || b == 0xc6 {
      var got := Number(data, pos, Width(b));
      if got.None? { return Err(Truncated); }
      pos := pos + Width(b);
      if pos + got.value > |data| { return Err(Truncated); }
      return Ok((Bin(data[pos..pos + got.value]), pos + got.value));
    }
    if b == 0xc0 { return Ok((Nil, pos)); }
    if b == 0xc2 || b == 0xc3 { return Ok((Bool(b == 0xc3), pos)); }
    if b == 0xcc || b == 0xcd || b == 0xce || b == 0xcf {
      var got := Number(data, pos, Width(b));
      return if got.None? then Err(Truncated) else Ok((Int(got.value), pos + Width(b)));
    }
    return Err(Unsupported(b));
  }

  method UnpackItems(data: seq<byte>, start: nat, n: nat) returns (r: Result<(seq<Value>, nat), Failure>)
    ensures r == DecodeItems(data, start, n)
    decreases if start <= |data| then |data| - start else 0, 1
  {
    hide Decode;
    var pos, items := start, [];
    var i := 0;
    assert forall r :: WithItems([], r) == r by {
      forall r: Result<(seq<Value>, nat), Failure> ensures WithItems([], r) == r {
        if r.Ok? { assert [] + r.value.0 == r.value.0; }
      }
    }
    while i < n
      invariant 0 <= i <= n && start <= pos && (i == 0 ==> pos == start) && (i > 0 ==> start < pos <= |data|)
      invariant DecodeItems(data, start, n) == WithItems(items, DecodeItems(data, pos, n - i))
    {
      ghost var later := DecodeItems(data, pos, n - i);
      var got := Unpack(data, pos);
      if got.Err? { return Err(got.error); }
      ghost var rest := DecodeItems(data, got.value.1, n - i - 1);
      assert rest.Ok? ==> items + ([got.value.0] + rest.value.0) == items + [got.value.0] + rest.value.0;
      items, pos := items + [got.value.0], got.value.1;
      i := i + 1;
    }
    assert items + [] == items;
    return Ok((items, pos));
  }

  method UnpackPairs(data: seq<byte>, start: nat, n: nat) returns (r: Result<(seq<Pair>, nat), Failure>)
    ensures r == DecodePairs(data, start, n, {})
    decreases if start <= |data| then |data| - start else 0, 1
  {
    hide Decode, DecodePairs;
    var pos, result := start, [];
    var i := 0;
    NoPairs(data, start, n);
    while i < n
      invariant 0 <= i <= n && start <= pos && (i == 0 ==> pos == start) && (i > 0 ==> start < pos <= |data|)
      invariant DecodePairs(data, start, n, {}) == WithPairs(result, DecodePairs(data, pos, n - i, KeysOf(result)))
    {
      PairsStep(data, pos, n - i, result);
      var key := Unpack(data, pos);
      if key.Err? { return Err(key.error); }
      if !key.value.0.Str? || key.value.0.text in KeysOf(result) { return Err(BadKey); }
      var value := Unpack(data, key.value.1);
      if value.Err? { return Err(value.error); }
      var pair := Pair(key.value.0.text, value.value.0);
      result, pos := result + [pair], value.value.1;
      i := i + 1;
    }
    PairsDone(data, pos, result);
    return Ok((result, pos));
  }

  lemma {:induction false} NoPairs(data: seq<byte>, pos: nat, n: nat)
    ensures KeysOf([]) == {} && WithPairs([], DecodePairs(data, pos, n, {})) == DecodePairs(data, pos, n, {})
  {
    var r := DecodePairs(data, pos, n, {});
    if r.Ok? { assert [] + r.value.0 == r.value.0; }
  }

  lemma {:induction false} PairsDone(data: seq<byte>, pos: nat, result: seq<Pair>)
    ensures WithPairs(result, DecodePairs(data, pos, 0, KeysOf(result))) == Ok((result, pos))
  {
    assert result + [] == result;
  }

  /** One item of a dictionary moves from what is left to what is done. */
  lemma {:induction false} PairsStep(data: seq<byte>, pos: nat, n: nat, result: seq<Pair>)
    requires n > 0
    ensures WithPairs(result, DecodePairs(data, pos, n, KeysOf(result))) ==
      match Decode(data, pos)
      case Err(e) => Err(e)
      case Ok((key, p)) =>
        if !key.Str? || key.text in KeysOf(result) then Err(BadKey)
        else
          match Decode(data, p)
          case Err(e) => Err(e)
          case Ok((value, q)) =>
            var more := result + [Pair(key.text, value)];
            WithPairs(more, DecodePairs(data, q, n - 1, KeysOf(more)))
  {
    hide Decode;
    var key := Decode(data, pos);
    if key.Ok? && key.value.0.Str? && key.value.0.text !in KeysOf(result) {
      var value := Decode(data, key.value.1);
      if value.Ok? {
        var pair := Pair(key.value.0.text, value.value.0);
        AddKey(result, pair);
        var rest := DecodePairs(data, value.value.1, n - 1, KeysOf(result + [pair]));
        if rest.Ok? { assert result + ([pair] + rest.value.0) == result + [pair] + rest.value.0; }
      }
    }
  }

  lemma {:induction false} AddKey(pairs: seq<Pair>, pair: Pair)
    ensures KeysOf(pairs + [pair]) == KeysOf(pairs) + {pair.key}
  {
    var more := pairs + [pair];
    assert more[|pairs|] == pair;
    forall i | 0 <= i < |pairs| ensures pairs[i].key in KeysOf(more) { assert more[i] == pairs[i]; }
  }

  // ---- unpack undoes pack ----

  lemma {:induction false} AtNumber(data: seq<byte>, pos: nat, b: byte, n: nat, w: nat, rest: seq<byte>)
    requires At(data, pos, [b] + BE(n, w) + rest) && n < Pow256(w)
    ensures pos < |data| && data[pos] == b && Number(data, pos + 1, w) == Some(n) && At(data, pos + 1 + w, rest)
  {
    AtSplit(data, pos, [b] + BE(n, w), rest);
    AtSplit(data, pos, [b], BE(n, w));
    AtHead(data, pos, [b]);
    FromBEInvertsBE(n, w);
  }

  lemma {:induction false} IntRoundTrip(data: seq<byte>, pos: nat, n: nat)
    requires n < 0x1_0000_0000_0000_0000 && At(data, pos, IntBytes(n))
    ensures Decode(data, pos) == Ok((Int(n), pos + |IntBytes(n)|))
  {
    Powers();
    AtHead(data, pos, IntBytes(n));
    assert IntBytes(n) + [] == IntBytes(n);
    if 0x80 <= n <= 0xff { AtNumber(data, pos, 0xcc, n, 1, []); }
    else if 0xff < n <= 0xffff { AtNumber(data, pos, 0xcd, n, 2, []); }
    else if 0xffff < n <= 0xffff_ffff { AtNumber(data, pos, 0xce, n, 4, []); }
    else if 0xffff_ffff < n { AtNumber(data, pos, 0xcf, n, 8, []); }
  }

  lemma {:induction false} StrRoundTrip(data: seq<byte>, pos: nat, text: seq<byte>)
    requires |text| < 0x1_0000_0000 && Utf8(text) && At(data, pos, StrHead(|text|) + text)
    ensures Decode(data, pos) == Ok((Str(text), pos + |StrHead(|text|)| + |text|))
  {
    hide Utf8;
    Powers();
    var n := |text|;
    AtSplit(data, pos, StrHead(n), text);
    AtHead(data, pos, StrHead(n));
    if 32 <= n <= 0xff { AtNumber(data, pos, 0xd9, n, 1, text); }
    else if 0xff < n <= 0xffff { AtNumber(data, pos, 0xda, n, 2, text); }
    else if 0xffff < n { AtNumber(data, pos, 0xdb, n, 4, text); }
  }

  lemma {:induction false} BinRoundTrip(data: seq<byte>, pos: nat, bin: seq<byte>)
    requires |bin| < 0x1_0000_0000 && At(data, pos, BinHead(|bin|) + bin)
    ensures Decode(data, pos) == Ok((Bin(bin), pos + |BinHead(|bin|)| + |bin|))
  {
    Powers();
    var n := |bin|;
    if n <= 0xff { AtNumber(data, pos, 0xc4, n, 1, bin); }
    else if n <= 0xffff { AtNumber(data, pos, 0xc5, n, 2, bin); }
    else { AtNumber(data, pos, 0xc6, n, 4, bin); }
  }

  lemma {:induction false} ArrHeadRoundTrip(data: seq<byte>, pos: nat, n: nat, rest: seq<byte>)
    requires n < 0x1_0000 && At(data, pos, ArrHead(n) + rest)
    ensures var p := pos + |ArrHead(n)|;
      At(data, p, rest) &&
      Decode(data, pos) == match DecodeItems(data, p, n)
                           case Ok((items, end)) => Ok((Arr(items), end))
                           case Err(e) => Err(e)
  {
    hide DecodeItems;
    Powers();
    AtSplit(data, pos, ArrHead(n), rest);
    AtHead(data, pos, ArrHead(n));
    if n >= 16 { AtNumber(data, pos, 0xdc, n, 2, rest); }
  }

  lemma {:induction false} MapHeadRoundTrip(data: seq<byte>, pos: nat, n: nat, rest: seq<byte>)
    requires n < 0x1_0000 && At(data, pos, MapHead(n) + rest)
    ensures var p := pos + |MapHead(n)|;
      At(data, p, rest) &&
      Decode(data, pos) == match DecodePairs(data, p, n, {})
                           case Ok((pairs, end)) => Ok((Map(pairs), end))
                           case Err(e) => Err(e)
  {
    hide DecodePairs;
    Powers();
    AtSplit(data, pos, MapHead(n), rest);
    AtHead(data, pos, MapHead(n));
    if n >= 16 { AtNumber(data, pos, 0xde, n, 2, rest); }
  }

  lemma {:induction false} AtomRoundTrip(data: seq<byte>, pos: nat, v: Value)
    requires (v.Nil? || v.Bool?) && At(data, pos, Bytes(v))
    ensures Decode(data, pos) == Ok((v, pos + 1))
  {
    AtHead(data, pos, Bytes(v));
  }

  /** Decoding what pack wrote for a value, wherever it stands in whatever message, gives the value back and the exact
      end of its bytes. */
  lemma {:induction false} RoundTrip(data: seq<byte>, pos: nat, v: Value)
    requires Packable(v) && Proper(v) && At(data, pos, Bytes(v))
    ensures Decode(data, pos) == Ok((v, pos + |Bytes(v)|))
    decreases v, 1
  {
    hide Decode, DecodeItems, DecodePairs, IntBytes, StrHead, BinHead, ArrHead, MapHead, Utf8, ItemBytes, PairBytes, At;
    match v {
      case Int(n) => IntRoundTrip(data, pos, n);
      case Str(text) => StrRoundTrip(data, pos, text);
      case Bin(bin) => BinRoundTrip(data, pos, bin);
      case Arr(items) =>
        ArrHeadRoundTrip(data, pos, |items|, ItemBytes(items));
        ItemsRoundTrip(data, pos + |ArrHead(|items|)|, items);
      case Map(pairs) =>
        MapHeadRoundTrip(data, pos, |pairs|, PairBytes(pairs));
        PairsRoundTrip(data, pos + |MapHead(|pairs|)|, pairs, {});
      case _ => AtomRoundTrip(data, pos, v);
    }
  }

  lemma {:induction false} ItemsRoundTrip(data: seq<byte>, pos: nat, items: seq<Value>)
    requires forall i :: 0 <= i < |items| ==> Packable(items[i]) && Proper(items[i])
    requires At(data, pos, ItemBytes(items))
    ensures DecodeItems(data, pos, |items|) == Ok((items, pos + |ItemBytes(items)|))
    decreases items, 0
  {
    hide Decode, Bytes;
    if items != [] {
      AtSplit(data, pos, Bytes(items[0]), ItemBytes(items[1..]));
      RoundTrip(data, pos, items[0]);
      ItemsRoundTrip(data, pos + |Bytes(items[0])|, items[1..]);
      assert [items[0]] + items[1..] == items;
    }
  }

  lemma {:induction false} PairAt(data: seq<byte>, pos: nat, pairs: seq<Pair>)
    requires pairs != []
    requires forall i :: 0 <= i < |pairs| ==> |pairs[i].key| < 0x1_0000_0000 && Packable(pairs[i].value)
    requires At(data, pos, PairBytes(pairs))
    ensures var head, value := StrHead(|pairs[0].key|) + pairs[0].key, Bytes(pairs[0].value);
      var rest := PairBytes(pairs[1..]);
      At(data, pos, head) && At(data, pos + |head|, value) && At(data, pos + |head| + |value|, rest) &&
      |PairBytes(pairs)| == |head| + |value| + |rest|
  {
    hide Bytes, StrHead, At;
    var head, value, rest := StrHead(|pairs[0].key|) + pairs[0].key, Bytes(pairs[0].value), PairBytes(pairs[1..]);
    assert PairBytes(pairs) == head + (value + rest);
    AtSplit(data, pos, head, value + rest);
    AtSplit(data, pos + |head|, value, rest);
  }

  lemma {:induction false} PairsRoundTrip(data: seq<byte>, pos: nat, pairs: seq<Pair>, seen: set<seq<byte>>)
    requires forall i :: 0 <= i < |pairs| ==>
      |pairs[i].key| < 0x1_0000_0000 && Packable(pairs[i].value) && Utf8(pairs[i].key) && Proper(pairs[i].value)
    requires forall i, j :: 0 <= i < j < |pairs| ==> pairs[i].key != pairs[j].key
    requires forall i :: 0 <= i < |pairs| ==> pairs[i].key !in seen
    requires At(data, pos, PairBytes(pairs))
    ensures DecodePairs(data, pos, |pairs|, seen) == Ok((pairs, pos + |PairBytes(pairs)|))
    decreases pairs, 0
  {
    hide Decode, Bytes, StrHead, At, Packable, Proper, Utf8;
    if pairs != [] {
      var key, value, rest := pairs[0].key, pairs[0].value, pairs[1..];
      var head := StrHead(|key|) + key;
      assert value < pairs[0];
      PairAt(data, pos, pairs);
      StrRoundTrip(data, pos, key);
      RoundTrip(data, pos + |head|, value);
      PairsRoundTrip(data, pos + |head| + |Bytes(value)|, rest, seen + {key});
      assert [Pair(key, value)] + rest == pairs;
    }
  }

  // ---- pack writes the shortest form ----

  /** Bytes pos..end of the message are no shorter than s, and are s when as short. */
  predicate NoShorter(data: seq<byte>, pos: nat, end: nat, s: seq<byte>) {
    pos <= end <= |data| && |s| <= end - pos && (|s| == end - pos ==> data[pos..end] == s)
  }

  lemma {:induction false} NoShorterJoin(data: seq<byte>, pos: nat, mid: nat, end: nat, a: seq<byte>, b: seq<byte>)
    requires NoShorter(data, pos, mid, a) && NoShorter(data, mid, end, b)
    ensures NoShorter(data, pos, end, a + b)
  {
    assert data[pos..end] == data[pos..mid] + data[mid..end];
  }

  lemma {:induction false} NumberIsBE(data: seq<byte>, pos: nat, w: nat)
    requires pos < |data| && Number(data, pos + 1, w).Some?
    ensures var n := Number(data, pos + 1, w).value;
      n < Pow256(w) && data[pos..pos + 1 + w] == [data[pos]] + BE(n, w)
  {
    BEInvertsFromBE(data[pos + 1..pos + 1 + w]);
  }

  /** The head a length is decoded from is no shorter than the one pack writes for it. */
  lemma {:induction false} HeadShortest(data: seq<byte>, pos: nat, w: nat, n: nat)
    requires pos < |data| && w == Width(data[pos]) && Number(data, pos + 1, w) == Some(n)
    ensures 0xcc <= data[pos] <= 0xcf ==>
      n < 0x1_0000_0000_0000_0000 && NoShorter(data, pos, pos + 1 + w, IntBytes(n))
    ensures 0xd9 <= data[pos] <= 0xdb ==> NoShorter(data, pos, pos + 1 + w, StrHead(n))
    ensures 0xc4 <= data[pos] <= 0xc6 ==> NoShorter(data, pos, pos + 1 + w, BinHead(n))
    ensures 0xdc <= data[pos] <= 0xdd ==> NoShorter(data, pos, pos + 1 + w, ArrHead(n))
    ensures 0xde <= data[pos] <= 0xdf ==> NoShorter(data, pos, pos + 1 + w, MapHead(n))
  {
    hide BE;
    Powers();
    NumberIsBE(data, pos, w);
  }

  /** Whenever unpack reads a value that pack can write, pack writes it in no more bytes than unpack consumed; and in as
      many only if those were the very bytes. */
  lemma {:induction false} Shortest(data: seq<byte>, pos: nat)
    requires Decode(data, pos).Ok? && Packable(Decode(data, pos).value.0)
    ensures var (v, end) := Decode(data, pos).value; NoShorter(data, pos, end, Bytes(v))
    decreases if pos <= |data| then |data| - pos else 0, 0, 0
  {
    var (v, end) := Decode(data, pos).value;
    var b: int, w := data[pos], Width(data[pos]);
    match v {
      case Arr(items) =>
        ArrShortest(data, pos);
        ItemsShortest(data, pos + 1 + w, |items|);
        NoShorterJoin(data, pos, pos + 1 + w, end, ArrHead(|items|), ItemBytes(items));
      case Map(pairs) =>
        MapShortest(data, pos);
        PairsShortest(data, pos + 1 + w, |pairs|, {});
        NoShorterJoin(data, pos, pos + 1 + w, end, MapHead(|pairs|), PairBytes(pairs));
      case _ => LeafShortest(data, pos);
    }
  }

  lemma {:induction false} LeafShortest(data: seq<byte>, pos: nat)
    requires Decode(data, pos).Ok? && Packable(Decode(data, pos).value.0)
    requires var v := Decode(data, pos).value.0; !v.Arr? && !v.Map?
    ensures var (v, end) := Decode(data, pos).value; NoShorter(data, pos, end, Bytes(v))
  {
    hide BE, FromBE, Utf8, IntBytes, StrHead, BinHead;
    var (v, end) := Decode(data, pos).value;
    var b: int, w := data[pos], Width(data[pos]);
    if w > 0 { HeadShortest(data, pos, w, Number(data, pos + 1, w).value); }
    match v {
      case Int(n) => if w == 0 { SmallHeads(data, pos, n); }
      case Str(text) =>
        if w == 0 { SmallHeads(data, pos, |text|); }
        NoShorterJoin(data, pos, pos + 1 + w, end, StrHead(|text|), text);
      case Bin(bin) => NoShorterJoin(data, pos, pos + 1 + w, end, BinHead(|bin|), bin);
      case Nil => assert data[pos..pos + 1] == [data[pos]];
      case Bool(_) => assert data[pos..pos + 1] == [data[pos]];
      case _ =>
    }
  }

  /** Heads that hold their number in the first byte. */
  lemma {:induction false} SmallHeads(data: seq<byte>, pos: nat, n: int)
    requires pos < |data|
    ensures 0 <= n == data[pos] < 0x80 ==> NoShorter(data, pos, pos + 1, IntBytes(n))
    ensures 0xa0 <= data[pos] <= 0xbf && n == data[pos] as int - 0xa0 ==> NoShorter(data, pos, pos + 1, StrHead(n))
    ensures 0x90 <= data[pos] <= 0x9f && n == data[pos] as int - 0x90 ==> NoShorter(data, pos, pos + 1, ArrHead(n))
    ensures 0x80 <= data[pos] <= 0x8f && n == data[pos] as int - 0x80 ==> NoShorter(data, pos, pos + 1, MapHead(n))
  {
    assert data[pos..pos + 1] == [data[pos]];
  }

  lemma {:induction false} ArrShortest(data: seq<byte>, pos: nat)
    requires Decode(data, pos).Ok? && Decode(data, pos).value.0.Arr?
    ensures var (v, end) := Decode(data, pos).value;
      var p := pos + 1 + Width(data[pos]);
      NoShorter(data, pos, p, ArrHead(|v.items|)) && DecodeItems(data, p, |v.items|) == Ok((v.items, end))
  {
    hide ArrHead, DecodeItems, DecodePairs, BE, FromBE, Utf8;
    var w := Width(data[pos]);
    SmallHeads(data, pos, data[pos] as int - 0x90);
    if w > 0 { HeadShortest(data, pos, w, Number(data, pos + 1, w).value); }
  }

  lemma {:induction false} MapShortest(data: seq<byte>, pos: nat)
    requires Decode(data, pos).Ok? && Decode(data, pos).value.0.Map?
    ensures var (v, end) := Decode(data, pos).value;
      var p := pos + 1 + Width(data[pos]);
      NoShorter(data, pos, p, MapHead(|v.pairs|)) && DecodePairs(data, p, |v.pairs|, {}) == Ok((v.pairs, end))
  {
    hide MapHead, DecodeItems, DecodePairs, BE, FromBE, Utf8;
    var w := Width(data[pos]);
    SmallHeads(data, pos, data[pos] as int - 0x80);
    if w > 0 { HeadShortest(data, pos, w, Number(data, pos + 1, w).value); }
  }

  lemma {:induction false} ItemsShortest(data: seq<byte>, pos: nat, n: nat)
    requires pos <= |data| && DecodeItems(data, pos, n).Ok?
    requires forall i :: 0 <= i < n ==> Packable(DecodeItems(data, pos, n).value.0[i])
    ensures var (items, end) := DecodeItems(data, pos, n).value; NoShorter(data, pos, end, ItemBytes(items))
    decreases |data| - pos, 1, n
  {
    hide Decode, Bytes;
    if n > 0 {
      var (item, p) := Decode(data, pos).value;
      var (items, end) := DecodeItems(data, pos, n).value;
      var (rest, _) := DecodeItems(data, p, n - 1).value;
      assert items[0] == item && items[1..] == rest;
      assert forall i :: 0 <= i < n - 1 ==> rest[i] == items[i + 1];
      Shortest(data, pos);
      ItemsShortest(data, p, n - 1);
      NoShorterJoin(data, pos, p, end, Bytes(item), ItemBytes(rest));
    }
  }

  lemma {:induction false} PairsShortest(data: seq<byte>, pos: nat, n: nat, seen: set<seq<byte>>)
    requires pos <= |data| && DecodePairs(data, pos, n, seen).Ok?
    requires forall i :: 0 <= i < n ==>
      var pair := DecodePairs(data, pos, n, seen).value.0[i]; |pair.key| < 0x1_0000_0000 && Packable(pair.value)
    ensures var (pairs, end) := DecodePairs(data, pos, n, seen).value; NoShorter(data, pos, end, PairBytes(pairs))
    decreases |data| - pos, 1, n
  {
    hide Decode, Bytes, StrHead;
    if n > 0 {
      var (key, p) := Decode(data, pos).value;
      var (value, q) := Decode(data, p).value;
      var (pairs, end) := DecodePairs(data, pos, n, seen).value;
      var (rest, _) := DecodePairs(data, q, n - 1, seen + {key.text}).value;
      assert pairs[0] == Pair(key.text, value) && pairs[1..] == rest;
      assert forall i :: 0 <= i < n - 1 ==> rest[i] == pairs[i + 1];
      Shortest(data, pos);
      Shortest(data, p);
      PairsShortest(data, q, n - 1, seen + {key.text});
      KeyBytes(key.text);
      NoShorterJoin(data, pos, p, q, Bytes(key), Bytes(value));
      NoShorterJoin(data, pos, q, end, Bytes(key) + Bytes(value), PairBytes(rest));
    }
  }

  lemma {:induction false} KeyBytes(text: seq<byte>)
    requires |text| < 0x1_0000_0000
    ensures Packable(Str(text)) && Bytes(Str(text)) == StrHead(|text|) + text
  {
  }

  // ---- What unpack returns is a Python value ----

  lemma {:induction false} DecodedIsProper(data: seq<byte>, pos: nat)
    requires Decode(data, pos).Ok?
    ensures Proper(Decode(data, pos).value.0)
    decreases if pos <= |data| then |data| - pos else 0, 0, 0
  {
    hide DecodeItems, DecodePairs, Utf8, FromBE, ArrHead, MapHead;
    var (v, end) := Decode(data, pos).value;
    match v {
      case Arr(items) =>
        ArrShortest(data, pos);
        ItemsAreProper(data, pos + 1 + Width(data[pos]), |items|);
      case Map(pairs) =>
        MapShortest(data, pos);
        PairsAreProper(data, pos + 1 + Width(data[pos]), |pairs|, {});
      case _ =>
    }
  }

  lemma {:induction false} ItemsAreProper(data: seq<byte>, pos: nat, n: nat)
    requires pos <= |data| && DecodeItems(data, pos, n).Ok?
    ensures forall i :: 0 <= i < n ==> Proper(DecodeItems(data, pos, n).value.0[i])
    decreases |data| - pos, 1, n
  {
    hide Decode, Proper;
    if n > 0 {
      DecodedIsProper(data, pos);
      ItemsAreProper(data, Decode(data, pos).value.1, n - 1);
    }
  }

  lemma {:induction false} PairsAreProper(data: seq<byte>, pos: nat, n: nat, seen: set<seq<byte>>)
    requires pos <= |data| && DecodePairs(data, pos, n, seen).Ok?
    ensures var pairs := DecodePairs(data, pos, n, seen).value.0;
      (forall i :: 0 <= i < n ==> pairs[i].key !in seen && Utf8(pairs[i].key) && Proper(pairs[i].value)) &&
      forall i, j :: 0 <= i < j < n ==> pairs[i].key != pairs[j].key
    decreases |data| - pos, 1, n
  {
    hide Decode;
    if n > 0 {
      var (key, p) := Decode(data, pos).value;
      var (value, q) := Decode(data, p).value;
      DecodedIsProper(data, pos);
      DecodedIsProper(data, p);
      PairsAreProper(data, q, n - 1, seen + {key.text});
      var pairs := DecodePairs(data, pos, n, seen).value.0;
      var rest := DecodePairs(data, q, n - 1, seen + {key.text}).value.0;
      assert pairs == [Pair(key.text, value)] + rest;
      forall i, j | 0 <= i < j < n ensures pairs[i].key != pairs[j].key {
        assert pairs[j] == rest[j - 1];
        if i > 0 { assert pairs[i] == rest[i - 1]; }
      }
    }
  }
}

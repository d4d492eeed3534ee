/** AMD microcode containers as Linux's loader reads them (validate-amd-ucode.py). */
module AmdContainers {
  import opened Prelude

  const MAGIC: seq<byte> := [0x44, 0x4d, 0x41, 0x00]  // "DMA\0"
  const CONTAINER_HEADER_SIZE := 12
  const EQUIV_ENTRY_SIZE := 16
  const EQUIV_TABLE_TYPE := 0
  const PATCH_HEADER_SIZE := 64
  const PATCH_SECTION_HEADER_SIZE := 8
  const PATCH_SECTION_TYPE := 1

  datatype What =
    | FileEmpty | TruncatedHeader | BadMagic | BadTableType | MisalignedTable | TruncatedTable
    | TruncatedSection | BadSectionType | PatchTooSmall | PatchOverruns | ZeroRevision | ChipsetSpecific | NoPatches

  /** A ValidationError: the byte it names and what is wrong there. */
  datatype Fault = Fault(offset: nat, what: What)

  datatype Inventory = Inventory(containers: nat, patches: nat)

  // ---- Little-endian words ----

  function U32(data: seq<byte>, offset: nat): (n: nat)
    requires offset + 4 <= |data|
    ensures n < 0x1_0000_0000
  {
    var a: int, b: int, c: int, d: int := data[offset], data[offset + 1], data[offset + 2], data[offset + 3];
    a + 0x100 * (b + 0x100 * (c + 0x100 * d))
  }

  function LE32(n: nat): (s: seq<byte>)
    requires n < 0x1_0000_0000
    ensures |s| == 4
  {
    var m := n / 0x100;
    var l := m / 0x100;
    [n % 0x100, m % 0x100, l % 0x100, l / 0x100]
  }

  lemma {:induction false} LowDigit(n: nat, low: int, high: int)
    requires 0 <= low < 0x100
    ensures n == low + 0x100 * high <==> low == n % 0x100 && high == n / 0x100
  {
  }

  lemma {:induction false} LE32Inverts(data: seq<byte>, offset: nat, n: nat)
    requires n < 0x1_0000_0000 && offset + 4 <= |data|
    ensures At(data, offset, LE32(n)) <==> U32(data, offset) == n
  {
    var s, t := data[offset..offset + 4], LE32(n);
    var a: int, b: int, c: int, d: int := s[0], s[1], s[2], s[3];
    var m := n / 0x100;
    var l := m / 0x100;
    LowDigit(n, a, b + 0x100 * (c + 0x100 * d));
    LowDigit(m, b, c + 0x100 * d);
    LowDigit(l, c, d);
    assert a == data[offset] && b == data[offset + 1] && c == data[offset + 2] && d == data[offset + 3];
    assert t == [n % 0x100, m % 0x100, l % 0x100, l / 0x100];
    assert s == t <==> s[0] == t[0] && s[1] == t[1] && s[2] == t[2] && s[3] == t[3];
  }

  // ---- The format ----

  /** A patch section's payload: the microcode header and body. */
  datatype Patch = Patch(body: seq<byte>)

  datatype Container = Container(table: seq<byte>, patches: seq<Patch>)

  predicate PatchOk(p: Patch) {
    PATCH_HEADER_SIZE <= |p.body| < 0x1_0000_0000 && U32(p.body, 4) != 0 && U32(p.body, 16) == 0 && U32(p.body, 20) == 0
  }

  predicate ContainerOk(c: Container) {
    |c.table| < 0x1_0000_0000 && |c.table| % EQUIV_ENTRY_SIZE == 0 && c.patches != [] && PatchesOk(c.patches)
  }

  predicate PatchesOk(ps: seq<Patch>) { forall i :: 0 <= i < |ps| ==> PatchOk(ps[i]) }

  predicate ContainersOk(cs: seq<Container>) { forall i :: 0 <= i < |cs| ==> ContainerOk(cs[i]) }

  function PatchBytes(p: Patch): seq<byte>
    requires PatchOk(p)
  {
    LE32(PATCH_SECTION_TYPE) + LE32(|p.body|) + p.body
  }

  function PatchesBytes(ps: seq<Patch>): seq<byte>
    requires PatchesOk(ps)
  {
    if ps == [] then [] else PatchBytes(ps[0]) + PatchesBytes(ps[1..])
  }

  function ContainerBytes(c: Container): seq<byte>
    requires ContainerOk(c)
  {
    MAGIC + LE32(EQUIV_TABLE_TYPE) + LE32(|c.table|) + c.table + PatchesBytes(c.patches)
  }

  function FileBytes(cs: seq<Container>): seq<byte>
    requires ContainersOk(cs)
  {
    if cs == [] then [] else ContainerBytes(cs[0]) + FileBytes(cs[1..])
  }

  function Count(cs: seq<Container>): Inventory {
    if cs == [] then Inventory(0, 0)
    else Plus(Inventory(1, |cs[0].patches|), Count(cs[1..]))
  }

  // ---- Reading ----

  predicate MagicAt(data: seq<byte>, offset: nat) {
    At(data, offset, MAGIC)
  }

  /** The end of the equivalence table of the container at offset. */
  function TableEnd(data: seq<byte>, offset: nat): (r: Result<nat, Fault>)
    requires offset < |data|
    ensures r.Ok? ==> offset + CONTAINER_HEADER_SIZE <= r.value <= |data|
  {
    if |data| - offset < CONTAINER_HEADER_SIZE then Err(Fault(offset, TruncatedHeader))
    else if !MagicAt(data, offset) then Err(Fault(offset, BadMagic))
    else if U32(data, offset + 4) != EQUIV_TABLE_TYPE then Err(Fault(offset + 4, BadTableType))
    else if U32(data, offset + 8) % EQUIV_ENTRY_SIZE != 0 then Err(Fault(offset + 8, MisalignedTable))
    else if U32(data, offset + 8) > |data| - offset - CONTAINER_HEADER_SIZE then Err(Fault(offset + 8, TruncatedTable))
    else Ok(offset + CONTAINER_HEADER_SIZE + U32(data, offset + 8))
  }

  /** The end of the patch section at offset. */
  function PatchEnd(data: seq<byte>, offset: nat): (r: Result<nat, Fault>)
    requires offset < |data|
    ensures r.Ok? ==> offset + PATCH_SECTION_HEADER_SIZE + PATCH_HEADER_SIZE <= r.value <= |data|
  {
    if |data| - offset < PATCH_SECTION_HEADER_SIZE then Err(Fault(offset, TruncatedSection))
    else if U32(data, offset) != PATCH_SECTION_TYPE then Err(Fault(offset, BadSectionType))
    else if U32(data, offset + 4) < PATCH_HEADER_SIZE then Err(Fault(offset + 4, PatchTooSmall))
    else if U32(data, offset + 4) > |data| - offset - PATCH_SECTION_HEADER_SIZE then
      Err(Fault(offset + 4, PatchOverruns))
    else
      var start := offset + PATCH_SECTION_HEADER_SIZE;
      if U32(data, start + 4) == 0 then Err(Fault(start + 4, ZeroRevision))
      else if U32(data, start + 16) != 0 || U32(data, start + 20) != 0 then Err(Fault(start + 16, ChipsetSpecific))
      else Ok(start + U32(data, offset + 4))
  }

  /** The patch sections from offset to the next container or the end. */
  function Patches(data: seq<byte>, offset: nat): (r: Result<(seq<Patch>, nat), Fault>)
    requires offset <= |data|
    ensures r.Ok? ==> offset <= r.value.1 <= |data|
    decreases |data| - offset
  {
    if offset == |data| || MagicAt(data, offset) then Ok(([], offset))
    else
      match PatchEnd(data, offset)
      case Err(e) => Err(e)
      case Ok(next) =>
        match Patches(data, next)
        case Err(e) => Err(e)
        case Ok((rest, end)) => Ok(([Patch(data[offset + PATCH_SECTION_HEADER_SIZE..next])] + rest, end))
  }

  function Containers(data: seq<byte>, offset: nat): Result<seq<Container>, Fault>
    requires offset <= |data|
    decreases |data| - offset
  {
    if offset == |data| then Ok([])
    else
      match TableEnd(data, offset)
      case Err(e) => Err(e)
      case Ok(body) =>
        match Patches(data, body)
        case Err(e) => Err(e)
        case Ok((patches, end)) =>
          if patches == [] then Err(Fault(offset, NoPatches))
          else
            match Containers(data, end)
            case Err(e) => Err(e)
            case Ok(rest) => Ok([Container(data[offset + CONTAINER_HEADER_SIZE..body], patches)] + rest)
  }

  function Parsed(data: seq<byte>): Result<seq<Container>, Fault> {
    if data == [] then Err(Fault(0, FileEmpty)) else Containers(data, 0)
  }

  function Plus(a: Inventory, b: Inventory): Inventory {
    Inventory(a.containers + b.containers, a.patches + b.patches)
  }

  /** The inventory of what is read, after one already counted. */
  function Counted(before: Inventory, r: Result<seq<Container>, Fault>): Result<Inventory, Fault> {
    match r case Err(e) => Err(e) case Ok(cs) => Ok(Plus(before, Count(cs)))
  }

  method ParseContainerFile(data: seq<byte>) returns (r: Result<Inventory, Fault>)
    ensures r == Counted(Inventory(0, 0), Parsed(data))
  {
    hide TableEnd, PatchEnd, MagicAt, Patches, Containers, Counted;
    if data == [] {
      EmptyRejected();
      return Err(Fault(0, FileEmpty));
    }
    var offset, containers: nat, patches: nat := 0, 0, 0;
    while offset < |data|
      invariant offset <= |data|
      invariant Counted(Inventory(0, 0), Containers(data, 0)) ==
        Counted(Inventory(containers, patches), Containers(data, offset))
      decreases |data| - offset
    {
      var start := offset;
      CountedStep(data, start, Inventory(containers, patches));
      var body := TableEnd(data, offset);
      if body.Err? { return Err(body.error); }
      offset := body.value;
      var containerPatches: nat := 0;
      ghost var patches0 := patches;
      ghost var done: seq<Patch> := [];
      NoPatch(Patches(data, offset));
      while offset < |data| && !MagicAt(data, offset)
        invariant body.value <= offset <= |data| && containerPatches == |done| && patches == patches0 + |done|
        invariant Patches(data, body.value) == WithPatches(done, Patches(data, offset))
        decreases |data| - offset
      {
        PatchesStep(data, offset, done);
        var next := PatchEnd(data, offset);
        if next.Err? { return Err(next.error); }
        done := done + [Patch(data[offset + PATCH_SECTION_HEADER_SIZE..next.value])];
        offset := next.value;
        containerPatches := containerPatches + 1;
        patches := patches + 1;
      }
      PatchesDone(data, offset, done);
      if containerPatches == 0 { return Err(Fault(start, NoPatches)); }
      containers := containers + 1;
    }
    CountedEnd(data, Inventory(containers, patches));
    return Ok(Inventory(containers, patches));
  }

  lemma {:induction false} EmptyRejected()
    ensures Parsed([]).Err? && Counted(Inventory(0, 0), Parsed([])) == Err(Fault(0, FileEmpty))
  {
  }

  lemma {:induction false} CountedEnd(data: seq<byte>, before: Inventory)
    ensures Counted(before, Containers(data, |data|)) == Ok(before)
  {
  }

  lemma {:induction false} CountedStep(data: seq<byte>, offset: nat, before: Inventory)
    requires offset < |data|
    ensures Counted(before, Containers(data, offset)) ==
      match TableEnd(data, offset)
      case Err(e) => Err(e)
      case Ok(body) =>
        match Patches(data, body)
        case Err(e) => Err(e)
        case Ok((patches, end)) =>
          if patches == [] then Err(Fault(offset, NoPatches))
          else Counted(Inventory(before.containers + 1, before.patches + |patches|), Containers(data, end))
  {
    hide TableEnd, Patches;
    match TableEnd(data, offset)
    case Err(_) =>
    case Ok(body) =>
      match Patches(data, body)
      case Err(_) =>
      case Ok((patches, end)) =>
        if patches != [] && Containers(data, end).Ok? {
          var c := Container(data[offset + CONTAINER_HEADER_SIZE..body], patches);
          var rest := Containers(data, end).value;
          assert ([c] + rest)[1..] == rest && ([c] + rest)[0] == c;
        }
  }

  function WithPatches(done: seq<Patch>, r: Result<(seq<Patch>, nat), Fault>): Result<(seq<Patch>, nat), Fault> {
    match r case Err(e) => Err(e) case Ok((rest, end)) => Ok((done + rest, end))
  }

  lemma {:induction false} NoPatch(r: Result<(seq<Patch>, nat), Fault>)
    ensures WithPatches([], r) == r
  {
    if r.Ok? { assert [] + r.value.0 == r.value.0; }
  }

  lemma {:induction false} PatchesDone(data: seq<byte>, offset: nat, done: seq<Patch>)
    requires offset <= |data| && (offset == |data| || MagicAt(data, offset))
    ensures WithPatches(done, Patches(data, offset)) == Ok((done, offset))
  {
    assert done + [] == done;
  }

  lemma {:induction false} PatchesStep(data: seq<byte>, offset: nat, done: seq<Patch>)
    requires offset < |data| && !MagicAt(data, offset)
    ensures WithPatches(done, Patches(data, offset)) ==
      match PatchEnd(data, offset)
      case Err(e) => Err(e)
      case Ok(next) =>
        WithPatches(done + [Patch(data[offset + PATCH_SECTION_HEADER_SIZE..next])], Patches(data, next))
  {
    hide PatchEnd, MagicAt;
    if PatchEnd(data, offset).Ok? {
      var next := PatchEnd(data, offset).value;
      var patch := Patch(data[offset + PATCH_SECTION_HEADER_SIZE..next]);
      if Patches(data, next).Ok? {
        var rest := Patches(data, next).value.0;
        assert done + ([patch] + rest) == done + [patch] + rest;
      }
    }
  }

  // ---- Accepted files are exactly the serialisations ----

  lemma {:induction false} SlicesJoin(data: seq<byte>, a: nat, b: nat, c: nat)
    requires a <= b <= c <= |data|
    ensures data[a..c] == data[a..b] + data[b..c]
  {
  }

  lemma {:induction false} PatchRead(data: seq<byte>, offset: nat)
    requires offset < |data| && PatchEnd(data, offset).Ok?
    ensures var next := PatchEnd(data, offset).value;
      var p := Patch(data[offset + PATCH_SECTION_HEADER_SIZE..next]);
      PatchOk(p) && data[offset..next] == PatchBytes(p)
  {
    var next := PatchEnd(data, offset).value;
    var start := offset + PATCH_SECTION_HEADER_SIZE;
    var body := data[start..next];
    assert forall i :: 0 <= i < |body| ==> body[i] == data[start + i];
    LE32Inverts(data, offset, PATCH_SECTION_TYPE);
    LE32Inverts(data, offset + 4, |body|);
    SlicesJoin(data, offset, offset + 4, start);
    SlicesJoin(data, offset, start, next);
  }

  lemma {:induction false} PatchesRead(data: seq<byte>, offset: nat)
    requires offset <= |data| && Patches(data, offset).Ok?
    ensures var (ps, end) := Patches(data, offset).value;
      PatchesOk(ps) && data[offset..end] == PatchesBytes(ps) && (end == |data| || MagicAt(data, end))
    decreases |data| - offset
  {
    hide PatchEnd, MagicAt, PatchOk, PatchBytes;
    if offset < |data| && !MagicAt(data, offset) {
      var next := PatchEnd(data, offset).value;
      PatchRead(data, offset);
      PatchesRead(data, next);
      var (ps, end) := Patches(data, offset).value;
      var rest := Patches(data, next).value.0;
      assert ps[0] == Patch(data[offset + PATCH_SECTION_HEADER_SIZE..next]) && ps[1..] == rest;
      assert forall i :: 0 < i < |ps| ==> ps[i] == rest[i - 1];
      SlicesJoin(data, offset, next, end);
    }
  }

  lemma {:induction false} TableRead(data: seq<byte>, offset: nat)
    requires offset < |data| && TableEnd(data, offset).Ok?
    ensures var body := TableEnd(data, offset).value;
      var table := data[offset + CONTAINER_HEADER_SIZE..body];
      |table| < 0x1_0000_0000 && |table| % EQUIV_ENTRY_SIZE == 0 &&
      data[offset..body] == MAGIC + LE32(EQUIV_TABLE_TYPE) + LE32(|table|) + table
  {
    var body := TableEnd(data, offset).value;
    var table := data[offset + CONTAINER_HEADER_SIZE..body];
    LE32Inverts(data, offset + 4, EQUIV_TABLE_TYPE);
    LE32Inverts(data, offset + 8, |table|);
    SlicesJoin(data, offset, offset + 4, offset + 8);
    SlicesJoin(data, offset, offset + 8, offset + 12);
    SlicesJoin(data, offset, offset + 12, body);
  }

  /** Whatever is accepted is the serialisation of the well-formed containers it is read as. */
  lemma {:induction false} ContainersRead(data: seq<byte>, offset: nat)
    requires offset <= |data| && Containers(data, offset).Ok?
    ensures var cs := Containers(data, offset).value;
      ContainersOk(cs) && data[offset..] == FileBytes(cs) && (offset < |data| ==> cs != [])
    decreases |data| - offset
  {
    hide TableEnd, Patches, PatchesOk, LE32, PatchesBytes;
    if offset < |data| {
      var body := TableEnd(data, offset).value;
      var (patches, end) := Patches(data, body).value;
      TableRead(data, offset);
      PatchesRead(data, body);
      ContainersRead(data, end);
      var c := Container(data[offset + CONTAINER_HEADER_SIZE..body], patches);
      SlicesJoin(data, offset, body, end);
      SlicesJoin(data, offset, end, |data|);
      OneMore(c, Containers(data, end).value);
    }
  }

  lemma {:induction false} OneMore(c: Container, rest: seq<Container>)
    requires ContainerOk(c) && ContainersOk(rest)
    ensures ContainersOk([c] + rest) && FileBytes([c] + rest) == ContainerBytes(c) + FileBytes(rest)
  {
    assert ([c] + rest)[1..] == rest;
  }

  lemma {:induction false} NotMagic(data: seq<byte>, offset: nat)
    requires At(data, offset, LE32(PATCH_SECTION_TYPE))
    ensures !MagicAt(data, offset)
  {
    assert data[offset] == data[offset..offset + 4][0] == 1;
    assert MAGIC[0] != 1;
  }

  lemma {:induction false} BodyWord(data: seq<byte>, start: nat, body: seq<byte>, k: nat)
    requires start + |body| <= |data| && data[start..start + |body|] == body && k + 4 <= |body|
    ensures U32(body, k) == U32(data, start + k)
  {
    assert forall i :: k <= i < k + 4 ==> body[i] == data[start..start + |body|][i] == data[start + i];
  }

  lemma {:induction false} PatchWritten(data: seq<byte>, offset: nat, p: Patch)
    requires PatchOk(p) && At(data, offset, PatchBytes(p))
    ensures offset < |data| && !MagicAt(data, offset)
    ensures PatchEnd(data, offset) == Ok(offset + |PatchBytes(p)|)
    ensures data[offset + PATCH_SECTION_HEADER_SIZE..offset + |PatchBytes(p)|] == p.body
  {
    hide LE32, MagicAt, U32;
    var start := offset + PATCH_SECTION_HEADER_SIZE;
    AtSplit(data, offset, LE32(PATCH_SECTION_TYPE) + LE32(|p.body|), p.body);
    AtSplit(data, offset, LE32(PATCH_SECTION_TYPE), LE32(|p.body|));
    LE32Inverts(data, offset, PATCH_SECTION_TYPE);
    LE32Inverts(data, offset + 4, |p.body|);
    assert data[start..start + |p.body|] == p.body;
    BodyWord(data, start, p.body, 4);
    BodyWord(data, start, p.body, 16);
    BodyWord(data, start, p.body, 20);
    NotMagic(data, offset);
  }

  lemma {:induction false} PatchesWritten(data: seq<byte>, offset: nat, ps: seq<Patch>)
    requires PatchesOk(ps) && At(data, offset, PatchesBytes(ps))
    requires var end := offset + |PatchesBytes(ps)|; end == |data| || MagicAt(data, end)
    ensures Patches(data, offset) == Ok((ps, offset + |PatchesBytes(ps)|))
    decreases |ps|
  {
    hide PatchEnd, MagicAt, PatchBytes, PatchOk;
    if ps != [] {
      AtSplit(data, offset, PatchBytes(ps[0]), PatchesBytes(ps[1..]));
      PatchWritten(data, offset, ps[0]);
      PatchesWritten(data, offset + |PatchBytes(ps[0])|, ps[1..]);
      assert [ps[0]] + ps[1..] == ps;
    }
  }

  lemma {:induction false} TableWritten(data: seq<byte>, offset: nat, table: seq<byte>, rest: seq<byte>)
    requires |table| < 0x1_0000_0000 && |table| % EQUIV_ENTRY_SIZE == 0
    requires At(data, offset, MAGIC + LE32(EQUIV_TABLE_TYPE) + LE32(|table|) + table + rest)
    ensures offset < |data| && MagicAt(data, offset)
    ensures var body := offset + CONTAINER_HEADER_SIZE + |table|;
      TableEnd(data, offset) == Ok(body) && data[offset + CONTAINER_HEADER_SIZE..body] == table && At(data, body, rest)
  {
    var a, b := LE32(EQUIV_TABLE_TYPE), LE32(|table|);
    AtSplit(data, offset, MAGIC + a + b + table, rest);
    AtSplit(data, offset, MAGIC + a + b, table);
    AtSplit(data, offset, MAGIC + a, b);
    AtSplit(data, offset, MAGIC, a);
    LE32Inverts(data, offset + 4, EQUIV_TABLE_TYPE);
    LE32Inverts(data, offset + 8, |table|);
  }

  /** The serialisation of any well-formed containers is read as those containers, and no others. */
  lemma {:induction false} ContainersWritten(data: seq<byte>, offset: nat, cs: seq<Container>)
    requires ContainersOk(cs) && offset <= |data| && data[offset..] == FileBytes(cs)
    ensures Containers(data, offset) == Ok(cs)
    decreases |cs|
  {
    hide TableEnd, Patches, PatchesOk, LE32, MagicAt, PatchesBytes;
    if cs != [] {
      var c := cs[0];
      var end := offset + |ContainerBytes(c)|;
      assert At(data, offset, ContainerBytes(c) + FileBytes(cs[1..]));
      AtSplit(data, offset, ContainerBytes(c), FileBytes(cs[1..]));
      TableWritten(data, offset, c.table, PatchesBytes(c.patches));
      assert data[end..] == FileBytes(cs[1..]);
      if cs[1..] != [] { NextMagic(data, end, cs[1..]); }
      PatchesWritten(data, offset + CONTAINER_HEADER_SIZE + |c.table|, c.patches);
      ContainersWritten(data, end, cs[1..]);
      assert [c] + cs[1..] == cs;
    }
  }

  lemma {:induction false} NextMagic(data: seq<byte>, offset: nat, cs: seq<Container>)
    requires ContainersOk(cs) && cs != [] && offset <= |data| && data[offset..] == FileBytes(cs)
    ensures offset < |data| && MagicAt(data, offset)
  {
    hide PatchesOk, LE32, PatchesBytes;
    var c := cs[0];
    assert At(data, offset, ContainerBytes(c) + FileBytes(cs[1..]));
    AtSplit(data, offset, ContainerBytes(c), FileBytes(cs[1..]));
    TableWritten(data, offset, c.table, PatchesBytes(c.patches));
  }

  /** A file is accepted exactly when it is the serialisation of a non-empty list of well-formed containers; the list it
      is read as is the only one. */
  lemma {:induction false} AcceptsSerialisations(data: seq<byte>, cs: seq<Container>)
    ensures Parsed(data) == Ok(cs) <==> cs != [] && ContainersOk(cs) && data == FileBytes(cs)
  {
    hide Containers, FileBytes, ContainersOk;
    assert data[0..] == data;
    if data != [] && Containers(data, 0).Ok? { ContainersRead(data, 0); }
    if cs != [] && ContainersOk(cs) && data == FileBytes(cs) {
      ContainersWritten(data, 0, cs);
      NonEmptyBytes(cs);
    }
  }

  lemma {:induction false} NonEmptyBytes(cs: seq<Container>)
    requires ContainersOk(cs) && cs != []
    ensures FileBytes(cs) != []
  {
    assert |ContainerBytes(cs[0])| >= 4;
  }

  lemma {:induction false} BothOk(cs: seq<Container>, ds: seq<Container>)
    requires ContainersOk(cs) && ContainersOk(ds)
    ensures ContainersOk(cs + ds)
  {
    hide ContainerOk;
  }

  lemma {:induction false} FileBytesJoin(cs: seq<Container>, ds: seq<Container>)
    requires ContainersOk(cs) && ContainersOk(ds) && ContainersOk(cs + ds)
    ensures FileBytes(cs + ds) == FileBytes(cs) + FileBytes(ds)
    decreases |cs|
  {
    hide ContainerOk, ContainerBytes;
    if cs == [] {
      assert cs + ds == ds;
    } else {
      var rest := cs[1..];
      assert (cs + ds)[1..] == rest + ds && (cs + ds)[0] == cs[0];
      FileBytesJoin(rest, ds);
      assert ContainerBytes(cs[0]) + FileBytes(rest) + FileBytes(ds) ==
        ContainerBytes(cs[0]) + (FileBytes(rest) + FileBytes(ds));
    }
  }

  lemma {:induction false} CountMore(c: Container, rest: seq<Container>)
    ensures Count([c] + rest) == Plus(Inventory(1, |c.patches|), Count(rest))
  {
    assert ([c] + rest)[1..] == rest;
  }

  lemma {:induction false} CountJoin(cs: seq<Container>, ds: seq<Container>)
    ensures Count(cs + ds) == Plus(Count(cs), Count(ds))
    decreases |cs|
  {
    if cs == [] {
      assert cs + ds == ds;
    } else {
      var c, rest := cs[0], cs[1..];
      CountJoin(rest, ds);
      CountMore(c, rest);
      CountMore(c, rest + ds);
      assert cs == [c] + rest;
      assert cs + ds == [c] + (rest + ds);
    }
  }

  /** Accepted files put together are accepted, as the containers of both. */
  lemma {:induction false} JoinIsAccepted(a: seq<byte>, b: seq<byte>)
    requires Parsed(a).Ok? && Parsed(b).Ok?
    ensures Parsed(a + b) == Ok(Parsed(a).value + Parsed(b).value)
    ensures Count(Parsed(a + b).value) == Plus(Count(Parsed(a).value), Count(Parsed(b).value))
  {
    hide Parsed, FileBytes, ContainersOk;
    var cs, ds := Parsed(a).value, Parsed(b).value;
    AcceptsSerialisations(a, cs);
    AcceptsSerialisations(b, ds);
    BothOk(cs, ds);
    FileBytesJoin(cs, ds);
    CountJoin(cs, ds);
    AcceptsSerialisations(a + b, cs + ds);
  }

  // ---- main ----

  datatype Verdict =
    | Valid(inventory: Inventory) | NoInputs | BadFile(fault: Fault) | NotTheConcatenation | InventoryDiffers

  function Joined(inputs: seq<seq<byte>>): seq<byte> {
    if inputs == [] then [] else Joined(inputs[..|inputs| - 1]) + inputs[|inputs| - 1]
  }

  predicate FirstBad(inputs: seq<seq<byte>>, i: nat, fault: Fault) {
    i < |inputs| && Parsed(inputs[i]) == Err(fault) && forall j :: 0 <= j < i ==> Parsed(inputs[j]).Ok?
  }

  lemma {:induction false} NothingJoined(inputs: seq<seq<byte>>)
    ensures Joined(inputs[..0]) == []
  {
  }

  lemma {:induction false} OneMoreJoined(inputs: seq<seq<byte>>, i: nat)
    requires i < |inputs|
    ensures Joined(inputs[..i + 1]) == Joined(inputs[..i]) + inputs[i]
  {
    assert inputs[..i + 1][..i] == inputs[..i];
  }

  lemma {:induction false} Extended(expected: seq<byte>, total: Inventory, data: seq<byte>)
    requires Parsed(data).Ok?
    requires if expected == [] then total == Inventory(0, 0)
      else Parsed(expected).Ok? && total == Count(Parsed(expected).value)
    ensures Parsed(expected + data).Ok?
    ensures Count(Parsed(expected + data).value) == Plus(total, Count(Parsed(data).value))
  {
    hide Parsed, Count;
    if expected == [] { assert expected + data == data; } else { JoinIsAccepted(expected, data); }
  }

  /** The order of checks in main. Its last check never fires. */
  method Validate(inputs: seq<seq<byte>>, assembled: seq<byte>) returns (v: Verdict)
    ensures v != InventoryDiffers
    ensures v.Valid? <==>
      inputs != [] && (forall i :: 0 <= i < |inputs| ==> Parsed(inputs[i]).Ok?) && assembled == Joined(inputs)
    ensures v.Valid? ==> Parsed(assembled).Ok? && v.inventory == Count(Parsed(assembled).value)
    ensures v.NoInputs? <==> inputs == []
    ensures v.BadFile? ==> exists i :: 0 <= i < |inputs| && FirstBad(inputs, i, v.fault)
    ensures v.NotTheConcatenation? ==>
      (forall i :: 0 <= i < |inputs| ==> Parsed(inputs[i]).Ok?) && assembled != Joined(inputs)
  {
    hide Parsed, Count, Joined;
    if inputs == [] { return NoInputs; }
    var total := Inventory(0, 0);
    var expected: seq<byte> := [];
    var i := 0;
    NothingJoined(inputs);
    while i < |inputs|
      invariant 0 <= i <= |inputs|
      invariant forall j :: 0 <= j < i ==> Parsed(inputs[j]).Ok?
      invariant expected == Joined(inputs[..i])
      invariant i > 0 ==> Parsed(expected).Ok? && total == Count(Parsed(expected).value)
      invariant i == 0 ==> expected == [] && total == Inventory(0, 0)
    {
      var inventory := ParseContainerFile(inputs[i]);
      if inventory.Err? {
        assert FirstBad(inputs, i, inventory.error);
        return BadFile(inventory.error);
      }
      OneMoreJoined(inputs, i);
      EmptyRejected();
      Extended(expected, total, inputs[i]);
      total := Plus(total, inventory.value);
      expected := expected + inputs[i];
      i := i + 1;
    }
    assert inputs[..i] == inputs;
    if assembled != expected { return NotTheConcatenation; }
    var output := ParseContainerFile(assembled);
    match output
    case Err(fault) => return BadFile(fault);
    case Ok(inventory) =>
      if inventory != total { return InventoryDiffers; }
      return Valid(total);
  }
}

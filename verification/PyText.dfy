/** The string methods of Python that several of the scripts use. */
module PyText {

  /** White space as Python's str methods see it. */
  predicate IsSpace(c: char) {
    '\t' <= c <= '\r' || '\U{1c}' <= c <= ' ' || c == '\U{85}' || c == '\U{a0}' || c == '\U{1680}' ||
    '\U{2000}' <= c <= '\U{200a}' || c == '\U{2028}' || c == '\U{2029}' || c == '\U{202f}' || c == '\U{205f}' ||
    c == '\U{3000}'
  }

  function StripLeft(s: string): (r: string)
    ensures |r| <= |s| && (r == "" || !IsSpace(r[0]))
  {
    if s != "" && IsSpace(s[0]) then StripLeft(s[1..]) else s
  }

  function StripRight(s: string): (r: string)
    ensures r <= s && (r == "" || !IsSpace(r[|r| - 1]))
  {
    if s != "" && IsSpace(s[|s| - 1]) then StripRight(s[..|s| - 1]) else s
  }

  function Strip(s: string): string { StripRight(StripLeft(s)) }

  /** The characters before the first white space. */
  function Word(s: string): (r: string)
    ensures r <= s
  {
    if s == "" || IsSpace(s[0]) then "" else [s[0]] + Word(s[1..])
  }

  predicate Spaces(s: string) { forall i :: 0 <= i < |s| ==> IsSpace(s[i]) }

  predicate IsWord(s: string) { s != "" && forall i :: 0 <= i < |s| ==> !IsSpace(s[i]) }

  lemma {:induction false} LeftStripped(pad: string, s: string)
    requires Spaces(pad) && s != "" && !IsSpace(s[0])
    ensures StripLeft(pad + s) == s
  {
    if pad == "" {
      assert pad + s == s;
    } else {
      LeftStripped(pad[1..], s);
      assert (pad + s)[1..] == pad[1..] + s;
    }
  }

  lemma {:induction false} RightStripped(s: string, pad: string)
    requires Spaces(pad) && s != "" && !IsSpace(s[|s| - 1])
    ensures StripRight(s + pad) == s
  {
    if pad == "" {
      assert s + pad == s;
    } else {
      var k := |pad| - 1;
      RightStripped(s, pad[..k]);
      assert (s + pad)[..|s + pad| - 1] == s + pad[..k];
    }
  }

  lemma {:induction false} LeftStrippedAny(pad: string, s: string)
    requires Spaces(pad)
    ensures StripLeft(pad + s) == StripLeft(s) && StripLeft(StripLeft(s)) == StripLeft(s)
  {
    if pad == "" {
      assert pad + s == s;
    } else {
      LeftStrippedAny(pad[1..], s);
      assert (pad + s)[1..] == pad[1..] + s;
    }
  }

  lemma {:induction false} RightStrippedAny(s: string, pad: string)
    requires Spaces(pad)
    ensures StripRight(s + pad) == StripRight(s)
  {
    if pad == "" {
      assert s + pad == s;
    } else {
      var k := |pad| - 1;
      RightStrippedAny(s, pad[..k]);
      assert (s + pad)[..|s + pad| - 1] == s + pad[..k];
    }
  }

  lemma {:induction false} LeftKeepsTail(s: string, pad: string)
    requires Spaces(pad)
    ensures StripLeft(s + pad) == if StripLeft(s) == "" then "" else StripLeft(s) + pad
  {
    var all := s + pad;
    if s == "" {
      assert all == pad + "";
      LeftStrippedAny(pad, "");
    } else {
      hide IsSpace;
      assert all[0] == s[0] && all[1..] == s[1..] + pad;
      if IsSpace(s[0]) { LeftKeepsTail(s[1..], pad); }
    }
  }

  lemma {:induction false} StripKeepsHead(s: string)
    requires s != "" && !IsSpace(s[0])
    ensures StripRight(s) != "" && StripRight(s)[0] == s[0]
    decreases |s|
  {
    if IsSpace(s[|s| - 1]) { StripKeepsHead(s[..|s| - 1]); }
  }

  /** Blanks around a string do not change what is left of it when it is stripped. */
  lemma {:induction false} StrippedOfBlanks(lead: string, s: string, tail: string)
    requires Spaces(lead) && Spaces(tail)
    ensures Strip(lead + s + tail) == Strip(s)
  {
    assert lead + s + tail == lead + (s + tail);
    LeftStrippedAny(lead, s + tail);
    LeftKeepsTail(s, tail);
    RightStrippedAny(StripLeft(s), tail);
  }

  /** What stripping takes away is blanks. */
  lemma {:induction false} BlanksAround(s: string) returns (lead: string, tail: string)
    ensures s == lead + Strip(s) + tail && Spaces(lead) && Spaces(tail)
    ensures Strip(Strip(s)) == Strip(s) && (Strip(s) == "" <==> StripLeft(s) == "")
  {
    lead := LeftBlanks(s);
    var t := StripLeft(s);
    tail := RightBlanks(t);
    StrippedOfBlanks(lead, Strip(s), tail);
    if t != "" { StripKeepsHead(t); }
  }

  lemma {:induction false} LeftBlanks(s: string) returns (lead: string)
    ensures s == lead + StripLeft(s) && Spaces(lead)
  {
    lead := "";
    if s != "" && IsSpace(s[0]) {
      var more := LeftBlanks(s[1..]);
      lead := [s[0]] + more;
    }
  }

  lemma {:induction false} RightBlanks(s: string) returns (tail: string)
    ensures s == StripRight(s) + tail && Spaces(tail)
    decreases |s|
  {
    tail := "";
    if s != "" && IsSpace(s[|s| - 1]) {
      var more := RightBlanks(s[..|s| - 1]);
      tail := more + [s[|s| - 1]];
      assert s == s[..|s| - 1] + [s[|s| - 1]];
    }
  }

  lemma {:induction false} WordRead(w: string, rest: string)
    requires IsWord(w) && (rest == "" || IsSpace(rest[0]))
    ensures Word(w + rest) == w
    decreases |w|
  {
    assert (w + rest)[1..] == w[1..] + rest;
    if |w| > 1 { WordRead(w[1..], rest); } else { assert w[1..] + rest == rest; }
  }

  /** Strings in Python's order. */
  predicate Precedes(a: string, b: string) {
    b != "" && (a == "" || a[0] < b[0] || (a[0] == b[0] && Precedes(a[1..], b[1..])))
  }

  lemma {:induction false} PrecedesIsOrder(a: string, b: string, c: string)
    ensures !Precedes(a, a)
    ensures a == b || Precedes(a, b) || Precedes(b, a)
    ensures Precedes(a, b) && Precedes(b, c) ==> Precedes(a, c)
    decreases |a|
  {
    if a != "" {
      PrecedesIsOrder(a[1..], if b != "" then b[1..] else "", if c != "" then c[1..] else "");
      if b != "" && a[0] == b[0] && a[1..] == b[1..] { assert a == [a[0]] + a[1..] && b == [b[0]] + b[1..]; }
    }
  }

  predicate IsLeast(x: string, s: set<string>) {
    x in s && forall y :: y in s && y != x ==> Precedes(x, y)
  }

  lemma {:induction false} HasLeast(s: set<string>)
    requires s != {}
    ensures exists x :: IsLeast(x, s)
    ensures forall x, y :: IsLeast(x, s) && IsLeast(y, s) ==> x == y
    decreases |s|
  {
    hide Precedes;
    var a :| a in s;
    if s == {a} {
      assert IsLeast(a, s);
    } else {
      var rest := s - {a};
      assert rest != {};
      HasLeast(rest);
      var b :| IsLeast(b, rest);
      PrecedesIsOrder(a, b, a);
      if Precedes(a, b) {
        forall y | y in s && y != a ensures Precedes(a, y) { PrecedesIsOrder(a, b, y); }
        assert IsLeast(a, s);
      } else {
        assert IsLeast(b, s);
      }
    }
    forall x, y | IsLeast(x, s) && IsLeast(y, s) ensures x == y { PrecedesIsOrder(x, y, x); }
  }

  predicate Ascending(es: seq<string>) { forall i, j :: 0 <= i < j < |es| ==> Precedes(es[i], es[j]) }

  lemma {:induction false} AscendingMore(x: string, rest: seq<string>)
    requires Ascending(rest)
    ensures (forall y :: y in rest ==> Precedes(x, y)) ==> Ascending([x] + rest)
  {
    hide Precedes;
    var es := [x] + rest;
    assert forall i :: 0 < i < |es| ==> es[i] == rest[i - 1] && es[i] in rest;
  }

  /** sorted(s). */
  function Sorted(s: set<string>): (es: seq<string>)
    ensures Ascending(es) && |es| == |s| && forall x :: x in es <==> x in s
    decreases |s|
  {
    if s == {} then []
    else
      HasLeast(s);
      var x :| IsLeast(x, s);
      var rest := Sorted(s - {x});
      AscendingMore(x, rest);
      assert s == {x} + (s - {x});
      [x] + rest
  }

  lemma {:induction false} LeastIsFirst(es: seq<string>, x: string)
    requires Ascending(es) && x in es
    ensures x == es[0] || Precedes(es[0], x)
  {
    hide Precedes;
    var i :| 0 <= i < |es| && es[i] == x;
  }

  lemma {:induction false} TailHolds(a: seq<string>, b: seq<string>, x: string)
    requires a != [] && b != [] && a[0] == b[0] && Ascending(a) && forall y :: y in a ==> y in b
    ensures x in a[1..] ==> x in b[1..]
  {
    hide Precedes;
    if x in a[1..] {
      var i :| 0 <= i < |a[1..]| && a[1..][i] == x;
      assert a[i + 1] == x && Precedes(a[0], x);
      PrecedesIsOrder(x, x, x);
      assert x in b;
      var j :| 0 <= j < |b| && b[j] == x;
      assert b[1..][j - 1] == x;
    }
  }

  /** There is one ascending list of the same strings. */
  lemma {:induction false} AscendingIsUnique(a: seq<string>, b: seq<string>)
    requires Ascending(a) && Ascending(b) && forall x :: x in a <==> x in b
    ensures a == b
    decreases |a|
  {
    hide Precedes;
    assert (a != [] ==> a[0] in a) && (b != [] ==> b[0] in b);
    if a != [] && b != [] {
      LeastIsFirst(a, b[0]);
      LeastIsFirst(b, a[0]);
      PrecedesIsOrder(a[0], b[0], a[0]);
      var a', b' := a[1..], b[1..];
      forall x ensures x in a' <==> x in b' { TailHolds(a, b, x); TailHolds(b, a, x); }
      AscendingIsUnique(a', b');
      assert a == [a[0]] + a' && b == [b[0]] + b';
    }
  }
}

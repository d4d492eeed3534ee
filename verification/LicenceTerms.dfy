/** Licence expressions as text: normalising them and printing their conjunction (collect-rust-licences). */
module LicenceTerms {
  import opened Prelude
  import opened PyText

  // ---- Reading an expression, annex D of SPDX 2.3 ----

  datatype Token = Open | Close | Name(name: string)

  const OR := Name("OR")
  const AND := Name("AND")

  predicate IsParen(c: char) { c == '(' || c == ')' }

  predicate Delimits(c: char) { IsSpace(c) || IsParen(c) }

  function Plain(s: string): (r: string)
    ensures r <= s
  {
    if s == "" || Delimits(s[0]) then "" else [s[0]] + Plain(s[1..])
  }

  /** White space and parentheses separate names. */
  function Tokens(s: string): seq<Token>
    decreases |s|
  {
    if s == "" then []
    else if IsSpace(s[0]) then Tokens(s[1..])
    else if IsParen(s[0]) then [if s[0] == '(' then Open else Close] + Tokens(s[1..])
    else [Name(Plain(s))] + Tokens(s[|Plain(s)|..])
  }

  /** Which licence terms hold: each is a few tokens, an identifier or an identifier WITH an exception. */
  type Terms = seq<Token> -> bool

  function Depth(ts: seq<Token>): int {
    if ts == [] then 0
    else Depth(ts[..|ts| - 1]) + (match ts[|ts| - 1] case Open => 1 case Close => -1 case Name(_) => 0)
  }

  predicate Balanced(ts: seq<Token>) {
    Depth(ts) == 0 && forall i :: 0 <= i < |ts| ==> Depth(ts[..i]) >= 0
  }

  /** The operator stands outside all parentheses. */
  predicate TopAt(ts: seq<Token>, op: Token, i: nat) { i < |ts| && ts[i] == op && Depth(ts[..i]) == 0 }

  predicate HasTop(ts: seq<Token>, op: Token) { exists i :: 0 <= i < |ts| && TopAt(ts, op, i) }

  function FirstTop(ts: seq<Token>, op: Token, i: nat): (r: nat)
    requires i <= |ts| && forall j :: 0 <= j < i ==> !TopAt(ts, op, j)
    ensures r <= |ts| && forall j :: 0 <= j < r ==> !TopAt(ts, op, j)
    ensures r < |ts| ==> TopAt(ts, op, r)
    decreases |ts| - i
  {
    if i == |ts| || TopAt(ts, op, i) then i else FirstTop(ts, op, i + 1)
  }

  /** Whether the expression holds: OR binds least, then AND, then parentheses. */
  function Holds(v: Terms, ts: seq<Token>): bool
    decreases |ts|
  {
    var o := FirstTop(ts, OR, 0);
    var a := FirstTop(ts, AND, 0);
    if o < |ts| then Holds(v, ts[..o]) || Holds(v, ts[o + 1..])
    else if a < |ts| then Holds(v, ts[..a]) && Holds(v, ts[a + 1..])
    else if |ts| >= 2 && ts[0] == Open && ts[|ts| - 1] == Close then Holds(v, ts[1..|ts| - 1])
    else v(ts)
  }

  // ---- Putting expressions together ----

  lemma {:induction false} DepthJoin(a: seq<Token>, b: seq<Token>)
    ensures Depth(a + b) == Depth(a) + Depth(b)
    decreases |b|
  {
    if b == [] {
      assert a + b == a;
    } else {
      DepthJoin(a, b[..|b| - 1]);
      assert (a + b)[..|a + b| - 1] == a + b[..|b| - 1];
    }
  }

  lemma {:induction false} PrefixDepth(a: seq<Token>, b: seq<Token>, i: nat)
    requires i <= |a + b|
    ensures Depth((a + b)[..i]) == if i <= |a| then Depth(a[..i]) else Depth(a) + Depth(b[..i - |a|])
  {
    if i <= |a| {
      assert (a + b)[..i] == a[..i];
    } else {
      assert (a + b)[..i] == a + b[..i - |a|];
      DepthJoin(a, b[..i - |a|]);
    }
  }

  lemma {:induction false} BalancedJoin(a: seq<Token>, b: seq<Token>)
    requires Balanced(a) && Balanced(b)
    ensures Balanced(a + b)
  {
    DepthJoin(a, b);
    forall i | 0 <= i < |a + b| ensures Depth((a + b)[..i]) >= 0 { PrefixDepth(a, b, i); }
  }

  lemma {:induction false} BalancedRest(a: seq<Token>, i: nat)
    requires Balanced(a) && i <= |a| && Depth(a[..i]) == 0
    ensures Balanced(a[..i]) && Balanced(a[i..])
  {
    assert a == a[..i] + a[i..];
    DepthJoin(a[..i], a[i..]);
    forall j | 0 <= j < i ensures Depth(a[..i][..j]) >= 0 { assert a[..i][..j] == a[..j]; }
    forall j | 0 <= j < |a[i..]| ensures Depth(a[i..][..j]) >= 0 {
      PrefixDepth(a[..i], a[i..], i + j);
      assert Depth(a[..i + j]) >= 0;
    }
  }

  lemma {:induction false} NameBalanced(n: Token)
    requires n.Name?
    ensures Balanced([n])
  {
    assert [n][..0] == [];
  }

  lemma {:induction false} TopJoin(a: seq<Token>, b: seq<Token>, op: Token, i: nat)
    requires Balanced(a)
    ensures TopAt(a + b, op, i) <==> if i < |a| then TopAt(a, op, i) else TopAt(b, op, i - |a|)
  {
    if i <= |a + b| { PrefixDepth(a, b, i); }
    if i == |a| { assert b[..0] == [] && a[..|a|] == a; }
  }

  lemma {:induction false} FirstIs(ts: seq<Token>, op: Token, i: nat)
    requires i <= |ts| && (forall j :: 0 <= j < i ==> !TopAt(ts, op, j)) && (i == |ts| || TopAt(ts, op, i))
    ensures FirstTop(ts, op, 0) == i
  {
  }

  /** The first top-level operator of a sequence that ends on a name, and what stands after it. */
  lemma {:induction false} FirstOfJoin(a: seq<Token>, n: Token, b: seq<Token>, op: Token)
    requires Balanced(a) && n.Name?
    requires FirstTop(a, op, 0) < |a| || n == op
    ensures var (f, all) := (FirstTop(a, op, 0), a + [n] + b);
      FirstTop(all, op, 0) == f && all[..f] == a[..f] &&
      all[f + 1..] == if f < |a| then a[f + 1..] + [n] + b else b
  {
    var f := FirstTop(a, op, 0);
    var all := a + [n] + b;
    assert all == a + ([n] + b);
    forall j | 0 <= j <= f ensures TopAt(all, op, j) <==> j == f {
      TopJoin(a, [n] + b, op, j);
      if j == |a| { assert ([n] + b)[..0] == []; }
    }
    FirstIs(all, op, f);
  }

  lemma {:induction false} NoTop(ts: seq<Token>, op: Token)
    ensures FirstTop(ts, op, 0) == |ts| <==> !HasTop(ts, op)
  {
  }

  /** OR binds least: it joins any two expressions. */
  lemma {:induction false} HoldsEither(v: Terms, a: seq<Token>, b: seq<Token>)
    requires Balanced(a)
    ensures Holds(v, a + [OR] + b) == (Holds(v, a) || Holds(v, b))
    decreases |a|
  {
    hide FirstTop, Balanced;
    var f := FirstTop(a, OR, 0);
    FirstOfJoin(a, OR, b, OR);
    assert (a + [OR] + b)[..f] == a[..f];
    if f < |a| {
      AfterTop(a, OR, f);
      HoldsEither(v, a[f + 1..], b);
    } else {
      assert a[..f] == a;
    }
  }

  lemma {:induction false} AfterTop(a: seq<Token>, op: Token, f: nat)
    requires Balanced(a) && TopAt(a, op, f) && op.Name?
    ensures Balanced(a[..f]) && Balanced(a[..f + 1]) && Balanced(a[f + 1..])
  {
    assert a[..f + 1] == a[..f] + [op];
    assert (a[..f] + [op])[..|a[..f] + [op]| - 1] == a[..f];
    BalancedRest(a, f + 1);
    BalancedRest(a, f);
  }

  /** AND joins expressions that have no OR of their own outside parentheses. */
  lemma {:induction false} HoldsBoth(v: Terms, a: seq<Token>, b: seq<Token>)
    requires Balanced(a) && Balanced(b) && !HasTop(a, OR) && !HasTop(b, OR)
    ensures Holds(v, a + [AND] + b) == (Holds(v, a) && Holds(v, b))
    ensures Balanced(a + [AND] + b) && !HasTop(a + [AND] + b, OR)
    decreases |a|
  {
    hide FirstTop, Balanced, HasTop;
    NoTopJoin(a, b);
    NoTop(a, OR);
    NoTop(a + [AND] + b, OR);
    var f := FirstTop(a, AND, 0);
    FirstOfJoin(a, AND, b, AND);
    if f < |a| {
      AfterTop(a, AND, f);
      NoTopAfter(a, f + 1);
      HoldsBoth(v, a[f + 1..], b);
    } else {
      assert a[..f] == a;
    }
  }

  lemma {:induction false} NoTopJoin(a: seq<Token>, b: seq<Token>)
    requires Balanced(a) && Balanced(b) && !HasTop(a, OR) && !HasTop(b, OR)
    ensures Balanced(a + [AND] + b) && !HasTop(a + [AND] + b, OR)
  {
    hide Balanced;
    NameBalanced(AND);
    BalancedJoin(a, [AND]);
    BalancedJoin(a + [AND], b);
    var all := a + [AND] + b;
    forall i | 0 <= i < |all| ensures !TopAt(all, OR, i) {
      TopJoin(a + [AND], b, OR, i);
      TopJoin(a, [AND], OR, i);
    }
  }

  lemma {:induction false} NoTopAfter(a: seq<Token>, f: nat)
    requires Balanced(a) && !HasTop(a, OR) && f <= |a| && Balanced(a[..f])
    ensures !HasTop(a[f..], OR)
  {
    assert a == a[..f] + a[f..];
    forall i | 0 <= i < |a[f..]| ensures !TopAt(a[f..], OR, i) { TopJoin(a[..f], a[f..], OR, f + i); }
  }

  /** Parentheses around an expression keep its meaning, and hide its operators. */
  lemma {:induction false} HoldsInside(v: Terms, a: seq<Token>)
    requires Balanced(a)
    ensures Holds(v, [Open] + a + [Close]) == Holds(v, a)
    ensures Balanced([Open] + a + [Close]) && forall op: Token :: op.Name? ==> !HasTop([Open] + a + [Close], op)
  {
    hide FirstTop;
    var all := [Open] + a + [Close];
    assert all[..1] == [Open] && [Open][..0] == [];
    DepthJoin([Open], a);
    DepthJoin([Open] + a, [Close]);
    assert [Close][..0] == [];
    forall i | 0 <= i < |all| ensures Depth(all[..i]) >= if i == 0 then 0 else 1 {
      PrefixDepth([Open] + a, [Close], i);
      PrefixDepth([Open], a, if i <= 1 + |a| then i else 0);
      if i == 1 + |a| { assert ([Open] + a)[..i] == [Open] + a; }
      if 1 <= i <= |a| { assert Depth(a[..i - 1]) >= 0; }
      if i == 1 { assert all[..1] == [Open]; }
    }
    forall op: Token | op.Name? ensures !HasTop(all, op) {
      forall i | 0 <= i < |all| ensures !TopAt(all, op, i) { assert all[0] == Open; }
    }
    NoTop(all, OR);
    NoTop(all, AND);
    assert all[1..|all| - 1] == a;
  }

  // ---- Text and tokens ----

  lemma {:induction false} PlainJoin(a: string, b: string)
    requires |Plain(a)| < |a| || b == "" || Delimits(b[0])
    ensures Plain(a + b) == Plain(a)
    decreases |a|
  {
    if a == "" {
      assert a + b == b;
    } else if !Delimits(a[0]) {
      PlainJoin(a[1..], b);
      assert (a + b)[1..] == a[1..] + b;
    }
  }

  lemma {:induction false} PlainIsName(a: string)
    ensures forall i :: 0 <= i < |Plain(a)| ==> !Delimits(a[i])
  {
    if a != "" && !Delimits(a[0]) { PlainIsName(a[1..]); }
  }

  lemma {:induction false} TokensHead(s: string)
    requires s != ""
    ensures Tokens(s) ==
      if IsSpace(s[0]) then Tokens(s[1..])
      else if IsParen(s[0]) then [if s[0] == '(' then Open else Close] + Tokens(s[1..])
      else [Name(Plain(s))] + Tokens(s[|Plain(s)|..])
  {
  }

  lemma {:induction false} DropJoin(a: string, b: string, n: nat)
    requires n <= |a|
    ensures (a + b)[n..] == a[n..] + b
  {
  }

  /** The tokens of a text that starts like another, after the first token of both. */
  lemma {:induction false} SameHead(a: string, b: string, n: nat)
    requires 1 <= n <= |a| && (if Delimits(a[0]) then n == 1 else n == |Plain(a)| == |Plain(a + b)|)
    requires Tokens(a[n..] + b) == Tokens(a[n..]) + Tokens(b)
    ensures Tokens(a + b) == Tokens(a) + Tokens(b)
  {
    hide Tokens, IsSpace, Plain;
    DropJoin(a, b, n);
    TokensHead(a);
    TokensHead(a + b);
    assert (a + b)[..n] == a[..n] && (a + b)[0] == a[0];
    if !Delimits(a[0]) { assert Plain(a) == a[..n] && Plain(a + b) == (a + b)[..n]; }
  }

  /** Where white space or a parenthesis stands between them, two texts are read one after the other. */
  lemma {:induction false} TokensJoin(a: string, b: string)
    requires a == "" || b == "" || Delimits(a[|a| - 1]) || Delimits(b[0])
    ensures Tokens(a + b) == Tokens(a) + Tokens(b)
    decreases |a|
  {
    hide Delimits;
    if a == "" {
      assert a + b == b;
    } else {
      hide Tokens;
      var n := if Delimits(a[0]) then 1 else |Plain(a)|;
      if !Delimits(a[0]) {
        PlainIsName(a);
        PlainJoin(a, b);
      }
      TokensJoin(a[n..], b);
      SameHead(a, b, n);
    }
  }

  lemma {:induction false} SpaceRead(s: string)
    ensures Tokens(" " + s) == Tokens(s)
  {
    assert (" " + s)[1..] == s;
  }

  lemma {:induction false} NameRead(w: string)
    requires w != "" && forall i :: 0 <= i < |w| ==> !Delimits(w[i])
    ensures Tokens(w) == [Name(w)]
  {
    PlainAll(w);
    assert w[|w|..] == "";
  }

  lemma {:induction false} PlainAll(w: string)
    requires forall i :: 0 <= i < |w| ==> !Delimits(w[i])
    ensures Plain(w) == w
  {
    if w != "" { PlainAll(w[1..]); }
  }

  const AND_TEXT := " AND "
  const OR_TEXT := " OR "

  lemma {:induction false} SpacedNameRead(op: string, b: string)
    requires op != "" && forall i :: 0 <= i < |op| ==> !Delimits(op[i])
    ensures Tokens(" " + (op + (" " + b))) == [Name(op)] + Tokens(b)
  {
    assert Delimits(' ');
    hide Tokens, Delimits;
    SpaceRead(op + (" " + b));
    TokensJoin(op, " " + b);
    SpaceRead(b);
    NameRead(op);
  }

  lemma {:induction false} Regroup(a: string, op: string, b: string)
    ensures a + " " + op + " " + b == a + (" " + (op + (" " + b)))
  {
  }

  lemma {:induction false} OperatorRead(a: string, op: string, b: string)
    requires op != "" && forall i :: 0 <= i < |op| ==> !Delimits(op[i])
    ensures Tokens(a + " " + op + " " + b) == Tokens(a) + [Name(op)] + Tokens(b)
  {
    assert Delimits(' ');
    var rest := " " + (op + (" " + b));
    assert rest[0] == ' ';
    hide Tokens, Delimits;
    Regroup(a, op, b);
    TokensJoin(a, rest);
    SpacedNameRead(op, b);
    assert Tokens(a) + ([Name(op)] + Tokens(b)) == Tokens(a) + [Name(op)] + Tokens(b);
  }

  lemma {:induction false} BracketsRead(a: string)
    ensures Tokens("(" + a + ")") == [Open] + Tokens(a) + [Close]
  {
    var s := "(" + a + ")";
    assert s[1..] == a + ")";
    TokensJoin(a, ")");
    assert ")"[1..] == "" && Tokens(")") == [Close];
  }

  // ---- combined ----

  predicate StandsAt(s: string, part: string, i: nat) { i + |part| <= |s| && s[i..i + |part|] == part }

  predicate Contains(s: string, part: string) { exists i :: 0 <= i <= |s| && StandsAt(s, part, i) }

  predicate IsCompound(e: string) { Contains(e, OR_TEXT) || Contains(e, AND_TEXT) || Contains(e, " WITH ") }

  predicate IsBracketed(e: string) { e != "" && e[0] == '(' && e[|e| - 1] == ')' }

  function Part(e: string, many: bool): string {
    if IsCompound(e) && many && !IsBracketed(e) then "(" + e + ")" else e
  }

  function Joined(parts: seq<string>, op: string): string {
    if parts == [] then ""
    else if |parts| == 1 then parts[0]
    else Joined(parts[..|parts| - 1], op) + " " + op + " " + parts[|parts| - 1]
  }

  function Parts(es: seq<string>, many: bool): seq<string> {
    if es == [] then [] else Parts(es[..|es| - 1], many) + [Part(es[|es| - 1], many)]
  }

  function Conjunction(s: set<string>): string { Joined(Parts(Sorted(s), |s| > 1), "AND") }

  method Combined(expressions: set<string>) returns (text: string)
    ensures text == Conjunction(expressions)
  {
    var sorted := Sorted(expressions);
    var parts: seq<string> := [];
    for i := 0 to |sorted|
      invariant parts == Parts(sorted[..i], |expressions| > 1)
    {
      var e := sorted[i];
      assert sorted[..i + 1][..i] == sorted[..i];
      var compound := IsCompound(e);
      parts := parts + [if compound && |expressions| > 1 && !IsBracketed(e) then "(" + e + ")" else e];
    }
    assert sorted[..|sorted|] == sorted;
    return Joined(parts, "AND");
  }

  /** The expression is put in parentheses, or needs none: it has no OR outside its own. */
  predicate Clear(e: string) { (IsCompound(e) && !IsBracketed(e)) || !HasTop(Tokens(e), OR) }

  lemma {:induction false} PartRead(v: Terms, e: string, many: bool)
    requires Balanced(Tokens(e))
    ensures Holds(v, Tokens(Part(e, many))) == Holds(v, Tokens(e)) && Balanced(Tokens(Part(e, many)))
    ensures many && Clear(e) ==> !HasTop(Tokens(Part(e, many)), OR)
  {
    hide IsCompound, IsBracketed, HasTop, Balanced, Holds, Tokens;
    BracketsRead(e);
    HoldsInside(v, Tokens(e));
  }

  ghost predicate AllHold(v: Terms, es: seq<string>) { forall i :: 0 <= i < |es| ==> Holds(v, Tokens(es[i])) }

  predicate AllBalanced(es: seq<string>) { forall i :: 0 <= i < |es| ==> Balanced(Tokens(es[i])) }

  lemma {:induction false} PartsJoined(v: Terms, es: seq<string>)
    requires es != [] && AllBalanced(es) && forall i :: 0 <= i < |es| ==> Clear(es[i])
    ensures var ts := Tokens(Joined(Parts(es, true), "AND"));
      Holds(v, ts) == AllHold(v, es) && Balanced(ts) && !HasTop(ts, OR)
    decreases |es|
  {
    hide Clear, HasTop, Balanced, Holds, Tokens, Part, AllHold, Joined, Parts;
    var k := |es| - 1;
    var head := es[..k];
    PartRead(v, es[k], true);
    PartsMore(es, true);
    AllHoldMore(v, es);
    if k > 0 {
      var before := Joined(Parts(head, true), "AND");
      PartsJoined(v, head);
      OperatorRead(before, "AND", Part(es[k], true));
      HoldsBoth(v, Tokens(before), Tokens(Part(es[k], true)));
    }
  }

  lemma {:induction false} AllHoldMore(v: Terms, es: seq<string>)
    requires es != []
    ensures AllHold(v, es) == ((|es| > 1 ==> AllHold(v, es[..|es| - 1])) && Holds(v, Tokens(es[|es| - 1])))
  {
    hide Holds, Tokens;
    var head := es[..|es| - 1];
    assert forall i :: 0 <= i < |head| ==> head[i] == es[i];
  }

  lemma {:induction false} PartsMore(es: seq<string>, many: bool)
    requires es != []
    ensures var (k, last) := (|es| - 1, Part(es[|es| - 1], many));
      Joined(Parts(es, many), "AND") ==
        if k == 0 then last else Joined(Parts(es[..k], many), "AND") + " " + "AND" + " " + last
  {
    hide Part;
    var k := |es| - 1;
    var parts, head := Parts(es, many), Parts(es[..k], many);
    PartsSize(es[..k], many);
    assert parts[..k] == head && parts[k] == Part(es[k], many);
  }

  lemma {:induction false} PartsSize(es: seq<string>, many: bool)
    ensures |Parts(es, many)| == |es|
    decreases |es|
  {
    if es != [] { PartsSize(es[..|es| - 1], many); }
  }

  ghost predicate EachHolds(v: Terms, s: set<string>) { forall e :: e in s ==> Holds(v, Tokens(e)) }

  /** The printed text means the conjunction of all the expressions, when each is clear. */
  lemma {:induction false} CombinedMeans(v: Terms, s: set<string>)
    requires s != {} && (forall e :: e in s ==> Balanced(Tokens(e))) && (|s| == 1 || forall e :: e in s ==> Clear(e))
    ensures Holds(v, Tokens(Conjunction(s))) == EachHolds(v, s)
  {
    hide Clear, Balanced, Holds, Tokens, Part, Joined, Parts, Sorted;
    var es := Sorted(s);
    assert forall i :: 0 <= i < |es| ==> es[i] in s;
    assert AllHold(v, es) == EachHolds(v, s);
    if |s| == 1 {
      OnlyPart(es);
    } else {
      PartsJoined(v, es);
    }
  }

  lemma {:induction false} OnlyPart(es: seq<string>)
    requires |es| == 1
    ensures Joined(Parts(es, false), "AND") == es[0]
  {
    assert Parts(es[..0], false) == [];
  }

  // ---- Where combined goes wrong ----

  /** All terms hold but the one named z. */
  function AllBut(z: string): Terms { (ts: seq<Token>) => !(|ts| == 1 && ts[0] == Name(z)) }

  predicate Lacks(ts: seq<Token>, z: string) { forall i :: 0 <= i < |ts| ==> ts[i] != Name(z) }

  lemma {:induction false} HoldsWithout(z: string, ts: seq<Token>)
    requires Lacks(ts, z)
    ensures Holds(AllBut(z), ts)
    decreases |ts|
  {
    hide FirstTop;
    var o, a := FirstTop(ts, OR, 0), FirstTop(ts, AND, 0);
    if o < |ts| {
      HoldsWithout(z, ts[..o]);
    } else if a < |ts| {
      HoldsWithout(z, ts[..a]);
      HoldsWithout(z, ts[a + 1..]);
    } else if |ts| >= 2 && ts[0] == Open && ts[|ts| - 1] == Close {
      HoldsWithout(z, ts[1..|ts| - 1]);
    }
  }

  lemma {:induction false} NamesAreShort(s: string, z: string)
    requires |z| > |s|
    ensures Lacks(Tokens(s), z)
    decreases |s|
  {
    if s != "" {
      if Delimits(s[0]) { NamesAreShort(s[1..], z); } else { PlainIsName(s); NamesAreShort(s[|Plain(s)|..], z); }
    }
  }

  function Zs(n: nat): (s: string)
    ensures |s| == n && forall i :: 0 <= i < n ==> s[i] == 'Z'
  {
    seq(n, _ => 'Z')
  }

  lemma {:induction false} HoldsAlone(z: string)
    requires |z| > 3
    ensures !Holds(AllBut(z), [Name(z)]) && Balanced([Name(z)])
    ensures forall op :: op in [OR, AND] ==> !HasTop([Name(z)], op)
  {
    NameBalanced(Name(z));
    NoTop([Name(z)], OR);
    NoTop([Name(z)], AND);
  }

  lemma {:induction false} SplitAtOr(z: string, ts: seq<Token>) returns (l: seq<Token>, r: seq<Token>)
    requires Balanced(ts) && HasTop(ts, OR) && Lacks(ts, z)
    ensures ts == l + [OR] + r && Balanced(l) && Balanced(r) && Holds(AllBut(z), l) && Holds(AllBut(z), r)
  {
    hide FirstTop, Balanced, HasTop, Holds;
    NoTop(ts, OR);
    var o := FirstTop(ts, OR, 0);
    l, r := ts[..o], ts[o + 1..];
    AfterTop(ts, OR, o);
    HoldsWithout(z, l);
    HoldsWithout(z, r);
  }

  lemma {:induction false} HoldsBefore(z: string, ts: seq<Token>)
    requires Balanced(ts) && HasTop(ts, OR) && Lacks(ts, z)
    ensures Holds(AllBut(z), ts + [AND] + [Name(z)])
  {
    hide Balanced, HasTop, Holds;
    var l, r := SplitAtOr(z, ts);
    HoldsEither(AllBut(z), l, r + [AND] + [Name(z)]);
    assert ts + [AND] + [Name(z)] == l + [OR] + (r + [AND] + [Name(z)]);
  }

  lemma {:induction false} HoldsAfter(z: string, ts: seq<Token>)
    requires Balanced(ts) && HasTop(ts, OR) && Lacks(ts, z)
    ensures Holds(AllBut(z), [Name(z)] + [AND] + ts)
  {
    hide Balanced, HasTop, Holds;
    var l, r := SplitAtOr(z, ts);
    NameBalanced(Name(z));
    NameBalanced(AND);
    BalancedJoin([Name(z)], [AND]);
    BalancedJoin([Name(z)] + [AND], l);
    HoldsEither(AllBut(z), [Name(z)] + [AND] + l, r);
    assert [Name(z)] + [AND] + ts == [Name(z)] + [AND] + l + [OR] + r;
  }

  lemma {:induction false} TwoParts(e: string, d: string)
    requires e != d
    ensures Conjunction({e, d}) == Part(e, true) + " AND " + Part(d, true) ||
      Conjunction({e, d}) == Part(d, true) + " AND " + Part(e, true)
    ensures Precedes(e, d) ==> Conjunction({e, d}) == Part(e, true) + " AND " + Part(d, true)
  {
    hide Part, Sorted, Precedes;
    var es := Sorted({e, d});
    PrecedesIsOrder(e, d, e);
    assert |{e, d}| == 2 && |es| == 2;
    assert es[0] in {e, d} && es[1] in {e, d} && es[0] != es[1] by {
      assert Precedes(es[0], es[1]);
      PrecedesIsOrder(es[0], es[1], es[0]);
    }
    var parts := [Part(es[0], true), Part(es[1], true)];
    assert es[..1] == [es[0]] && [es[0]][..0] == [];
    assert Parts([es[0]], true) == [Part(es[0], true)];
    assert Parts(es, true) == parts && parts[..1] == [parts[0]];
    assert Joined([parts[0]], "AND") == parts[0];
    var joined := Joined(parts, "AND");
    assert joined == parts[0] + " " + "AND" + " " + parts[1] == parts[0] + " AND " + parts[1];
  }

  /** The text of an expression and another one means both. */
  ghost predicate MeansBoth(v: Terms, e: string, d: string) {
    Holds(v, Tokens(Conjunction({e, d}))) == EachHolds(v, {e, d})
  }

  /** An expression that is not clear is printed wrongly beside any identifier it does not name. */
  lemma {:induction false} UnclearIsWrong(e: string, d: string)
    requires Balanced(Tokens(e)) && !Clear(e)
    requires IsTerm(d) && |d| > 3 && Lacks(Tokens(e), d)
    ensures d != e && Balanced(Tokens(d)) && Clear(d) && !MeansBoth(AllBut(d), e, d)
  {
    hide Holds, HasTop, Balanced, Tokens, Conjunction, IsCompound, IsBracketed;
    NameRead(d);
    HoldsAlone(d);
    NoSpaces(d);
    assert Tokens(d)[0] == Name(d);
    hide Lacks, IsTerm;
    TwoParts(e, d);
    assert Tokens(Part(e, true)) == Tokens(e) && Part(d, true) == d;
    HoldsBefore(d, Tokens(e));
    HoldsAfter(d, Tokens(e));
    AndText(e, d);
    AndText(d, e);
    assert d in {e, d} && !EachHolds(AllBut(d), {e, d});
  }

  lemma {:induction false} AndText(a: string, b: string)
    ensures Tokens(a + " AND " + b) == Tokens(a) + [AND] + Tokens(b)
  {
    hide Tokens;
    OperatorRead(a, "AND", b);
    assert a + " AND " + b == a + " " + "AND" + " " + b;
  }

  lemma {:induction false} NoSpaces(d: string)
    requires ' ' !in d
    ensures !IsCompound(d)
  {
    forall part | part == OR_TEXT || part == AND_TEXT || part == " WITH " ensures !Contains(d, part) {
      forall i | 0 <= i <= |d| ensures !StandsAt(d, part, i) {
        if i + |part| <= |d| { assert d[i..i + |part|][0] == d[i] && part[0] == ' '; }
      }
    }
  }

  /** An expression is printed rightly beside every clear other one exactly when it is itself clear. */
  lemma {:induction false} ClearExactly(e: string)
    requires Balanced(Tokens(e))
    ensures Clear(e) <==>
      forall d, v: Terms :: d != e && Balanced(Tokens(d)) && Clear(d) ==> MeansBoth(v, e, d)
  {
    hide Clear, Balanced, Tokens, Holds, Conjunction;
    if Clear(e) {
      forall d, v: Terms | d != e && Balanced(Tokens(d)) && Clear(d) ensures MeansBoth(v, e, d) {
        CombinedMeans(v, {e, d});
      }
    } else {
      var d := Zs(|e| + 4);
      NamesAreShort(e, d);
      UnclearIsWrong(e, d);
      assert !MeansBoth(AllBut(d), e, d);
    }
  }

  lemma {:induction false} OrStandsOutside(a: seq<Token>, b: seq<Token>)
    requires Balanced(a)
    ensures HasTop(a + [OR] + b, OR)
  {
    hide Balanced;
    var all := a + [OR] + b;
    assert all == a + ([OR] + b);
    TopJoin(a, [OR] + b, OR, |a|);
    assert ([OR] + b)[..0] == [];
    assert TopAt(all, OR, |a|);
  }

  /** A choice between two bracketed expressions is one that is not clear: it looks bracketed as a whole. */
  lemma {:induction false} BracketedChoiceIsUnclear(a: string, b: string)
    requires Balanced(Tokens(a)) && Balanced(Tokens(b))
    ensures var e := "(" + a + ")" + " OR " + "(" + b + ")"; Balanced(Tokens(e)) && !Clear(e)
  {
    hide Tokens, Balanced, HasTop, Holds, IsCompound;
    var l, r := "(" + a + ")", "(" + b + ")";
    var e := l + " OR " + "(" + b + ")";
    assert e == l + " " + "OR" + " " + r;
    OperatorRead(l, "OR", r);
    BracketsRead(a);
    BracketsRead(b);
    HoldsInside(AllBut(""), Tokens(a));
    HoldsInside(AllBut(""), Tokens(b));
    NameBalanced(OR);
    BalancedJoin(Tokens(l), [OR]);
    BalancedJoin(Tokens(l) + [OR], Tokens(r));
    OrStandsOutside(Tokens(l), Tokens(r));
    assert e[0] == '(' && e[|e| - 1] == ')';
  }

  lemma {:induction false} TouchingRead(a: string, r: string)
    requires r != "" && Delimits(r[0])
    ensures Tokens(a + (" " + ("OR" + r))) == Tokens(a) + [OR] + Tokens(r)
  {
    assert Delimits(' ');
    hide Tokens, Delimits;
    var named := "OR" + r;
    var rest := " " + named;
    assert rest[0] == ' ';
    TokensJoin(a, rest);
    SpaceRead(named);
    TokensJoin("OR", r);
    NoLetterDelimits();
    NameRead("OR");
    assert Tokens(a) + ([OR] + Tokens(r)) == Tokens(a) + [OR] + Tokens(r);
  }

  /** So is a choice whose OR touches a parenthesis, as annex D allows: it is not seen to be compound. */
  lemma {:induction false} TouchingOrIsUnclear(a: string, b: string)
    requires Balanced(Tokens(a)) && Balanced(Tokens(b)) && !IsCompound(a + (" " + ("OR" + ("(" + b + ")"))))
    ensures var e := a + (" " + ("OR" + ("(" + b + ")"))); Balanced(Tokens(e)) && !Clear(e)
  {
    var r := "(" + b + ")";
    assert r[0] == '(' && Delimits('(');
    hide Tokens, Balanced, HasTop, Holds, IsCompound, Delimits;
    TouchingRead(a, r);
    BracketsRead(b);
    HoldsInside(AllBut(""), Tokens(b));
    NameBalanced(OR);
    BalancedJoin(Tokens(a), [OR]);
    BalancedJoin(Tokens(a) + [OR], Tokens(r));
    OrStandsOutside(Tokens(a), Tokens(r));
  }

  lemma {:induction false} NoLetterDelimits()
    ensures !Delimits('O') && !Delimits('R')
  {
  }

  // ---- normalise ----

  /** s.replace("/", " OR "). */
  function Slashes(s: string): string {
    if s == "" then "" else (if s[0] == '/' then OR_TEXT else [s[0]]) + Slashes(s[1..])
  }

  /** s.split(). */
  function Words(s: string): seq<string>
    decreases |s|
  {
    var t := StripLeft(s);
    if t == "" then [] else [Word(t)] + Words(t[|Word(t)|..])
  }

  /** " ".join(ws). */
  function Spaced(ws: seq<string>): string {
    if ws == [] then "" else if |ws| == 1 then ws[0] else ws[0] + " " + Spaced(ws[1..])
  }

  function FirstAt(s: string, part: string, i: nat): (r: nat)
    requires i <= |s|
    ensures r <= |s| && (r < |s| ==> StandsAt(s, part, r))
    decreases |s| - i
  {
    if i == |s| || StandsAt(s, part, i) then i else FirstAt(s, part, i + 1)
  }

  /** s.split(" OR "). */
  function Alternatives(s: string): (parts: seq<string>)
    ensures parts != []
    decreases |s|
  {
    var i := FirstAt(s, OR_TEXT, 0);
    if i == |s| then [s] else [s[..i]] + Alternatives(s[i + |OR_TEXT|..])
  }

  function Elems(ss: seq<string>): set<string> { set x | x in ss }

  /** A choice between plain terms, without parentheses, AND or WITH. */
  predicate IsPlainChoice(e: string) { '(' !in e && !Contains(e, AND_TEXT) && !Contains(e, " WITH ") }

  function Normalised(declared: string): string {
    var e := Spaced(Words(Slashes(declared)));
    if IsPlainChoice(e) then Joined(Sorted(Elems(Alternatives(e))), "OR") else e
  }

  lemma {:induction false} WordIsRead(t: string)
    requires t != "" && !IsSpace(t[0])
    ensures Tokens(t) == Tokens(Word(t)) + Tokens(t[|Word(t)|..])
  {
    var w := Word(t);
    WordEnds(t);
    assert t == w + t[|w|..];
    TokensJoin(w, t[|w|..]);
  }

  lemma {:induction false} WordEnds(t: string)
    ensures |Word(t)| < |t| ==> IsSpace(t[|Word(t)|])
  {
    if t != "" && !IsSpace(t[0]) {
      WordEnds(t[1..]);
      assert Word(t) == [t[0]] + Word(t[1..]);
    }
  }

  lemma {:induction false} SpacesAreSkipped(s: string)
    ensures Tokens(StripLeft(s)) == Tokens(s)
  {
    if s != "" && IsSpace(s[0]) { SpacesAreSkipped(s[1..]); }
  }

  /** White space may be written anyhow. */
  lemma {:induction false} SpacedMeansSame(s: string)
    ensures Tokens(Spaced(Words(s))) == Tokens(s)
    decreases |s|
  {
    hide Tokens;
    var t := StripLeft(s);
    SpacesAreSkipped(s);
    if t != "" {
      var w := Word(t);
      var rest := t[|w|..];
      assert |w| >= 1;
      WordIsRead(t);
      SpacedMeansSame(rest);
      var ws := Words(rest);
      assert ([w] + ws)[1..] == ws;
      if ws == [] {
        NoTokens();
      } else {
        TokensJoin(w, " " + Spaced(ws));
        SpaceRead(Spaced(ws));
        assert w + " " + Spaced(ws) == w + (" " + Spaced(ws));
      }
    } else {
      NoTokens();
    }
  }

  lemma {:induction false} NoTokens()
    ensures Tokens("") == [] && forall ts: seq<Token> :: ts + [] == ts
  {
  }

  lemma {:induction false} OrText(a: string, b: string)
    ensures Tokens(a + OR_TEXT + b) == Tokens(a) + [OR] + Tokens(b)
  {
    hide Tokens;
    OperatorRead(a, "OR", b);
    assert a + OR_TEXT + b == a + " " + "OR" + " " + b;
  }

  predicate NoParens(ts: seq<Token>) { forall i :: 0 <= i < |ts| ==> ts[i].Name? }

  lemma {:induction false} NoParensBalanced(ts: seq<Token>)
    requires NoParens(ts)
    ensures Depth(ts) == 0 && Balanced(ts)
    decreases |ts|
  {
    if ts != [] {
      var k := |ts| - 1;
      NoParensBalanced(ts[..k]);
      forall i | 0 <= i < |ts| ensures Depth(ts[..i]) >= 0 {
        if i < k { assert ts[..k][..i] == ts[..i]; }
      }
    }
  }

  /** Parentheses that are never opened are never closed. */
  lemma {:induction false} NeverOpened(ts: seq<Token>)
    requires Balanced(ts) && Open !in ts
    ensures NoParens(ts)
  {
    for i := 0 to |ts|
      invariant NoParens(ts[..i])
    {
      NoParensBalanced(ts[..i]);
      var more := ts[..i + 1];
      assert more[..i] == ts[..i];
      assert i + 1 == |ts| ==> more == ts;
      assert Depth(more) >= 0;
    }
    assert ts[..|ts|] == ts;
  }

  lemma {:induction false} OpenIsWritten(s: string)
    requires '(' !in s
    ensures Open !in Tokens(s)
    decreases |s|
  {
    if s != "" {
      if Delimits(s[0]) {
        assert s == [s[0]] + s[1..];
        OpenIsWritten(s[1..]);
      } else {
        var n := |Plain(s)|;
        assert s == s[..n] + s[n..];
        OpenIsWritten(s[n..]);
      }
    }
  }

  ghost predicate SomeHolds(v: Terms, s: set<string>) { exists e :: e in s && Holds(v, Tokens(e)) }

  /** An expression without parentheses holds when one of its alternatives does. */
  lemma {:induction false} AlternativesMean(v: Terms, e: string)
    requires NoParens(Tokens(e))
    ensures Holds(v, Tokens(e)) == SomeHolds(v, Elems(Alternatives(e)))
    ensures forall x :: x in Elems(Alternatives(e)) ==> NoParens(Tokens(x))
    decreases |e|
  {
    hide Tokens, Holds;
    var i := FirstAt(e, OR_TEXT, 0);
    if i == |e| {
      assert Elems([e]) == {e};
    } else {
      var a, b := e[..i], e[i + |OR_TEXT|..];
      assert e == a + OR_TEXT + b;
      OrText(a, b);
      var ts := Tokens(e);
      var n := |Tokens(a)|;
      assert Tokens(a) == ts[..n] && Tokens(b) == ts[n + 1..];
      NoParensBalanced(Tokens(a));
      HoldsEither(v, Tokens(a), Tokens(b));
      AlternativesMean(v, b);
      assert Elems(Alternatives(e)) == {a} + Elems(Alternatives(b));
      assert SomeHolds(v, Elems(Alternatives(e))) == (Holds(v, Tokens(a)) || SomeHolds(v, Elems(Alternatives(b))));
    }
  }

  lemma {:induction false} JoinedMeans(v: Terms, es: seq<string>)
    requires es != [] && forall x :: x in es ==> NoParens(Tokens(x))
    ensures Holds(v, Tokens(Joined(es, "OR"))) == SomeHolds(v, Elems(es)) && NoParens(Tokens(Joined(es, "OR")))
    decreases |es|
  {
    hide Tokens, Holds;
    var k := |es| - 1;
    var head, last := es[..k], es[k];
    assert es == head + [last];
    assert Elems(es) == Elems(head) + {last};
    if k == 0 {
      assert Elems(es) == {last};
    } else {
      JoinedMeans(v, head);
      OperatorRead(Joined(head, "OR"), "OR", last);
      NoParensBalanced(Tokens(Joined(head, "OR")));
      HoldsEither(v, Tokens(Joined(head, "OR")), Tokens(last));
    }
  }

  /** A normalised expression means what was declared, a slash being OR. */
  lemma {:induction false} NormalisedMeans(v: Terms, declared: string)
    requires Balanced(Tokens(Slashes(declared)))
    ensures Holds(v, Tokens(Normalised(declared))) == Holds(v, Tokens(Slashes(declared)))
    ensures Balanced(Tokens(Normalised(declared)))
  {
    hide Tokens, Holds, Balanced, Sorted, Alternatives, Joined;
    var e := Spaced(Words(Slashes(declared)));
    SpacedMeansSame(Slashes(declared));
    if IsPlainChoice(e) {
      OpenIsWritten(e);
      NeverOpened(Tokens(e));
      AlternativesMean(v, e);
      var es := Sorted(Elems(Alternatives(e)));
      assert Alternatives(e)[0] in Elems(Alternatives(e));
      assert Elems(es) == Elems(Alternatives(e));
      JoinedMeans(v, es);
      NoParensBalanced(Tokens(Joined(es, "OR")));
    }
  }

  // ---- Declared licences that are not clear ----

  /** A licence identifier: no blank, parenthesis or slash. */
  predicate IsTerm(t: string) { t != "" && forall i :: 0 <= i < |t| ==> !Delimits(t[i]) && t[i] != '/' }

  lemma {:induction false} NoSlash(s: string)
    requires '/' !in s
    ensures Slashes(s) == s
  {
    if s != "" {
      NoSlash(s[1..]);
      assert s == [s[0]] + s[1..];
    }
  }

  lemma {:induction false} OneWord(w: string)
    requires IsWord(w)
    ensures Words(w) == [w] && StripLeft(w) == w
  {
    WordRead(w, "");
    assert w + "" == w && w[|w|..] == "";
    assert StripLeft("") == "";
  }

  lemma {:induction false} MoreWords(w: string, rest: string)
    requires IsWord(w)
    ensures Words(w + (" " + rest)) == [w] + Words(rest)
  {
    var s := w + (" " + rest);
    WordRead(w, " " + rest);
    assert s[0] == w[0] && StripLeft(s) == s && s[|w|..] == " " + rest;
    LeftStrippedAny(" ", rest);
  }

  /** Words with one blank between them are normalised as they stand, when they are no plain choice. */
  lemma {:induction false} NormalisedAsIs(w: string, rest: string)
    requires IsWord(w) && Spaced(Words(rest)) == rest && Words(rest) != [] && '(' in w + (" " + rest)
    requires '/' !in w + (" " + rest)
    ensures Normalised(w + (" " + rest)) == w + (" " + rest)
    ensures Spaced(Words(w + (" " + rest))) == w + (" " + rest)
  {
    hide Words;
    var e := w + (" " + rest);
    NoSlash(e);
    MoreWords(w, rest);
    var ws := Words(rest);
    assert ([w] + ws)[1..] == ws;
    assert w + " " + rest == e;
  }

  /** Every choice between two bracketed identifiers is a declared licence that comes out as it is, and is not clear. */
  lemma {:induction false} BracketedChoiceIsCollected(a: string, b: string)
    requires IsTerm(a) && IsTerm(b)
    ensures var e := "(" + a + ")" + " OR " + "(" + b + ")";
      Normalised(e) == e && Balanced(Tokens(e)) && !Clear(e)
  {
    hide Words, Slashes, Normalised, Tokens, Balanced, Clear;
    var l, r := "(" + a + ")", "(" + b + ")";
    var rest := "OR" + (" " + r);
    var e := l + " OR " + "(" + b + ")";
    assert e == l + (" " + rest);
    assert IsWord(l) && IsWord(r) && IsWord("OR");
    OneWord(r);
    assert Spaced([r]) == r;
    MoreWords("OR", r);
    assert (["OR"] + [r])[1..] == [r] && "OR" + " " + r == rest;
    assert Spaced(Words(rest)) == rest;
    assert l[0] == '(' && l[0] in l + (" " + rest);
    assert '/' !in l + (" " + rest);
    NormalisedAsIs(l, rest);
    TermRead(a);
    TermRead(b);
    BracketedChoiceIsUnclear(a, b);
  }

  lemma {:induction false} TermRead(t: string)
    requires IsTerm(t)
    ensures Tokens(t) == [Name(t)] && Balanced(Tokens(t))
  {
    NameRead(t);
    NameBalanced(Name(t));
  }

  /** So is every choice of two identifiers whose OR touches the parenthesis. */
  lemma {:induction false} TouchingOrIsCollected(a: string, b: string)
    requires IsTerm(a) && IsTerm(b)
    ensures var e := a + (" " + ("OR" + ("(" + b + ")")));
      Normalised(e) == e && Balanced(Tokens(e)) && !Clear(e)
  {
    hide Words, Slashes, Normalised, Tokens, Balanced, Clear;
    var rest := "OR" + ("(" + b + ")");
    var e := a + (" " + rest);
    assert IsWord(a) && IsWord(rest);
    OneWord(rest);
    assert Spaced([rest]) == rest;
    assert rest[2] == '(' && rest[2] in e && '/' !in e;
    NormalisedAsIs(a, rest);
    TermRead(a);
    TermRead(b);
    NoSpacedOperator(a, b);
    TouchingOrIsUnclear(a, b);
  }

  lemma {:induction false} NoSpacedOperator(a: string, b: string)
    requires IsTerm(a) && IsTerm(b)
    ensures !IsCompound(a + (" " + ("OR" + ("(" + b + ")"))))
  {
    var e := a + (" " + ("OR" + ("(" + b + ")")));
    assert forall i :: 0 <= i < |e| && i != |a| ==> e[i] != ' ';
    assert e[|a| + 1] == 'O' && e[|a| + 3] == '(';
    forall part | part == OR_TEXT || part == AND_TEXT || part == " WITH " ensures !Contains(e, part) {
      forall i | 0 <= i <= |e| ensures !StandsAt(e, part, i) {
        if i + |part| <= |e| {
          assert e[i..i + |part|][0] == e[i] && e[i..i + |part|][1] == e[i + 1] && e[i..i + |part|][3] == e[i + 3];
        }
      }
    }
  }

  /** Two such licences. */
  lemma {:induction false} UnclearLicences()
    ensures Normalised("(MIT) OR (ISC)") == "(MIT) OR (ISC)" && !Clear("(MIT) OR (ISC)")
    ensures Normalised("MIT OR(ISC)") == "MIT OR(ISC)" && !Clear("MIT OR(ISC)")
    ensures Balanced(Tokens("(MIT) OR (ISC)")) && Balanced(Tokens("MIT OR(ISC)"))
  {
    hide Normalised, Clear, Balanced, Tokens;
    assert IsTerm("MIT") && IsTerm("ISC");
    hide IsTerm;
    BracketedChoiceIsCollected("MIT", "ISC");
    TouchingOrIsCollected("MIT", "ISC");
    WrittenOut();
  }

  lemma {:induction false} WrittenOut()
    ensures "(" + "MIT" + ")" + " OR " + "(" + "ISC" + ")" == "(MIT) OR (ISC)"
    ensures "MIT" + (" " + ("OR" + ("(" + "ISC" + ")"))) == "MIT OR(ISC)"
  {
  }

  /** What `combined` prints of the first one and Zlib holds where Zlib does not. */
  lemma {:induction false} WrongConjunction()
    ensures var (s, v) := ({"(MIT) OR (ISC)", "Zlib"}, AllBut("Zlib"));
      Conjunction(s) == "(MIT) OR (ISC) AND Zlib" && Holds(v, Tokens(Conjunction(s))) && !Holds(v, Tokens("Zlib"))
  {
    hide Conjunction, Tokens, Holds, Normalised, Clear, Balanced, HasTop, Precedes;
    var e, d := "(MIT) OR (ISC)", "Zlib";
    UnclearLicences();
    FirstNames();
    UnclearIsWrong(e, d);
    HoldsAlone(d);
    NameRead(d);
    TwoParts(e, d);
    assert Precedes(e, d) by { SmallerFirst(e, d); }
    NoSpaces(d);
    assert e[0] == '(' && e[|e| - 1] == ')';
    assert e + " AND " + d == "(MIT) OR (ISC) AND Zlib";
  }

  lemma {:induction false} SmallerFirst(a: string, b: string)
    requires a != "" && b != "" && a[0] < b[0]
    ensures Precedes(a, b)
  {
  }

  lemma {:induction false} FirstNames()
    ensures Lacks(Tokens("(MIT) OR (ISC)"), "Zlib") && IsTerm("Zlib")
  {
    hide Tokens;
    assert IsTerm("MIT") && IsTerm("ISC") && IsTerm("Zlib");
    hide IsTerm;
    var (l, r) := ("(" + "MIT" + ")", "(" + "ISC" + ")");
    BracketsRead("MIT");
    BracketsRead("ISC");
    TermRead("MIT");
    TermRead("ISC");
    OperatorRead(l, "OR", r);
    assert l + " " + "OR" + " " + r == "(MIT) OR (ISC)";
  }
}

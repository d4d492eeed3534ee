/** Types shared by the models of the catalogue's helper scripts. */
module Prelude {

  datatype Option<+T> = None | Some(value: T)

  /** A value, or the error the script raises instead of returning one. */
  datatype Result<+T, +E> = Ok(value: T) | Err(error: E)

  type byte = b: int | 0 <= b < 256

  /** The message holds s at pos. */
  predicate At(data: seq<byte>, pos: nat, s: seq<byte>) {
    pos + |s| <= |data| && data[pos..pos + |s|] == s
  }

  lemma {:induction false} AtSplit(data: seq<byte>, pos: nat, a: seq<byte>, b: seq<byte>)
    requires At(data, pos, a + b)
    ensures At(data, pos, a) && At(data, pos + |a|, b)
  {
    var s := data[pos..pos + |a + b|];
    assert data[pos..pos + |a|] == s[..|a|] == a;
    assert data[pos + |a|..pos + |a| + |b|] == s[|a|..] == b;
  }

  lemma {:induction false} AtHead(data: seq<byte>, pos: nat, s: seq<byte>)
    requires At(data, pos, s) && s != []
    ensures pos < |data| && data[pos] == s[0]
  {
    assert data[pos..pos + |s|][0] == s[0];
  }
}

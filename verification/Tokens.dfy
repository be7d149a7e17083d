/** The comparison of WOPI access-token signatures. */
module Tokens {

  /** Differences accumulate bit by bit without an early exit, and only equal texts leave none. */
  method ConstantTimeEq(a: seq<bv8>, b: seq<bv8>) returns (equal: bool)
    ensures equal <==> a == b
  {
    if |a| != |b| { return false; }
    var diff: bv8 := 0;
    for i := 0 to |a|
      invariant diff == 0 <==> a[..i] == b[..i]
    {
      assert a[..i + 1] == a[..i] + [a[i]] && b[..i + 1] == b[..i] + [b[i]];
      assert a[..i + 1] == b[..i + 1] <==> a[..i] == b[..i] && a[i] == b[i] by {
        assert a[..i + 1][..i] == a[..i] && b[..i + 1][..i] == b[..i] && a[..i + 1][i] == a[i] && b[..i + 1][i] == b[i];
      }
      Accumulates(diff, a[i], b[i]);
      diff := diff | (a[i] ^ b[i]);
    }
    assert a[..|a|] == a && b[..|b|] == b;
    equal := diff == 0;
  }

  lemma Accumulates(diff: bv8, x: bv8, y: bv8)
    ensures (diff | (x ^ y)) == 0 <==> diff == 0 && x == y
  {
  }
}

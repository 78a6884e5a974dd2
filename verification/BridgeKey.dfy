/**
 The key comparison of `verify_bridge_key`: lengths first, then one pass that
 ORs together the XOR of every byte pair, with no early exit.
 */
module BridgeKey {
  lemma OrOfXor(acc: bv8, a: bv8, b: bv8)
    ensures acc | (a ^ b) == 0 <==> acc == 0 && a == b
  {
  }

  /** The fold accepts exactly the key itself. */
  method SameKey(current: seq<bv8>, supplied: seq<bv8>) returns (same: bool)
    ensures same <==> current == supplied
  {
    if |current| != |supplied| {
      return false;
    }
    var difference: bv8 := 0;
    for i := 0 to |current|
      invariant difference == 0 <==> current[..i] == supplied[..i]
    {
      OrOfXor(difference, current[i], supplied[i]);
      assert current[..i + 1] == current[..i] + [current[i]];
      assert supplied[..i + 1] == supplied[..i] + [supplied[i]];
      difference := difference | (current[i] ^ supplied[i]);
    }
    assert current[..|current|] == current && supplied[..|supplied|] == supplied;
    return difference == 0;
  }
}

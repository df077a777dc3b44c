/** Bytes, 32-bit numbers and the joining of byte strings. */
module Bytes {
  type byte = x: nat | x < 256

  /** How many 32-bit numbers there are. */
  const WRAP := 0x1_0000_0000

  type u32 = x: nat | x < WRAP

  /** What a wrapping 32-bit increment yields. */
  function Increment(n: u32): u32 {
    (n + 1) % WRAP
  }

  function Joined(parts: seq<seq<byte>>): seq<byte> {
    if parts == [] then [] else parts[0] + Joined(parts[1..])
  }

  lemma {:induction false} JoinedAppend(parts: seq<seq<byte>>, last: seq<byte>)
    ensures Joined(parts + [last]) == Joined(parts) + last
  {
    if parts == [] {
      assert Joined([last]) == last + Joined([]);
    } else {
      assert (parts + [last])[1..] == parts[1..] + [last];
      JoinedAppend(parts[1..], last);
    }
  }
}

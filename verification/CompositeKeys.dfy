/**
 Storage keys of both chains: the SHA-256 digest of an account identifier followed by a
 little-endian 32-bit number. The hash itself is a parameter; that its input determines
 the account and the number is proved.
 */
module CompositeKeys {
  import opened Bytes

  /** Account identifiers are encoded as their 32 bytes. */
  type AccountId = s: seq<byte> | |s| == 32 witness seq(32, _ => 0)

  type Hasher = seq<byte> -> seq<byte>

  function LittleEndian(n: u32): seq<byte> {
    [n % 256, n / 256 % 256, n / 256 / 256 % 256, n / 256 / 256 / 256]
  }

  function FromLittleEndian(b: seq<byte>): nat
    requires |b| == 4
  {
    var (b0: nat, b1: nat, b2: nat, b3: nat) := (b[0], b[1], b[2], b[3]);
    b0 + 256 * (b1 + 256 * (b2 + 256 * b3))
  }

  function KeyInput(a: AccountId, n: u32): seq<byte> {
    Joined([a, LittleEndian(n)])
  }

  function Key(sha: Hasher, a: AccountId, n: u32): seq<byte> {
    sha(KeyInput(a, n))
  }

  /** The key as both pallets compute it, extending a buffer part by part. */
  method CreateCompositeKey(sha: Hasher, parts: seq<seq<byte>>) returns (key: seq<byte>)
    ensures key == sha(Joined(parts))
  {
    var buffer := [];
    for i := 0 to |parts|
      invariant buffer == Joined(parts[..i])
    {
      JoinedAppend(parts[..i], parts[i]);
      assert parts[..i + 1] == parts[..i] + [parts[i]];
      buffer := buffer + parts[i];
    }
    assert parts[..|parts|] == parts;
    key := sha(buffer);
  }

  lemma LittleEndianRoundTrip(n: u32)
    ensures FromLittleEndian(LittleEndian(n)) == n
  {
  }

  lemma PairJoined(x: seq<byte>, y: seq<byte>)
    ensures Joined([x, y]) == x + y
  {
    JoinedAppend([x], y);
    assert [x] + [y] == [x, y];
    assert Joined([x]) == x + Joined([]);
  }

  /** The account's bytes come first, then the number, least significant byte first. */
  lemma KeyLayout(sha: Hasher, a: AccountId, n: u32)
    ensures Key(sha, a, n) == sha(a + [n % 256, n / 256 % 256, n / 65536 % 256, n / 16777216])
  {
    PairJoined(a, LittleEndian(n));
    assert n / 256 / 256 == n / 65536 && n / 256 / 256 / 256 == n / 16777216;
  }

  /** The bytes that are hashed determine the account and the number. */
  lemma KeyInputInjective(a: AccountId, m: u32, b: AccountId, n: u32)
    requires KeyInput(a, m) == KeyInput(b, n)
    ensures a == b && m == n
  {
    PairJoined(a, LittleEndian(m));
    PairJoined(b, LittleEndian(n));
    assert a == KeyInput(a, m)[..32] && b == KeyInput(b, n)[..32];
    assert LittleEndian(m) == KeyInput(a, m)[32..] && LittleEndian(n) == KeyInput(b, n)[32..];
    LittleEndianRoundTrip(m);
    LittleEndianRoundTrip(n);
  }

  /** No two different inputs hashed so far have the same digest. */
  ghost predicate NoCollision(sha: Hasher, hashed: set<(AccountId, u32)>) {
    forall p, q | p in hashed && q in hashed && Key(sha, p.0, p.1) == Key(sha, q.0, q.1) ::
      KeyInput(p.0, p.1) == KeyInput(q.0, q.1)
  }

  lemma SameKeySameOwner(sha: Hasher, hashed: set<(AccountId, u32)>, p: (AccountId, u32), q: (AccountId, u32))
    requires NoCollision(sha, hashed) && p in hashed && q in hashed
    requires Key(sha, p.0, p.1) == Key(sha, q.0, q.1)
    ensures p == q
  {
    KeyInputInjective(p.0, p.1, q.0, q.1);
  }
}

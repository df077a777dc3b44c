/**
 Reading across shards: a decoder draws bytes from a list of shards as if they were one
 string. Shards may be empty, and a read may end in the middle of one.
 */
module ShardReader {
  import opened Bytes
  import opened Options

  const USIZE := 0x1_0000_0000_0000_0000

  function Min(a: nat, b: nat): nat {
    if a < b then a else b
  }

  class ShardInput {
    var remainingLen: nat
    /** Shards not yet started. */
    var shards: seq<seq<byte>>
    /** The shard being read and the position reached in it. */
    var curShard: Option<(seq<byte>, nat)>

    ghost predicate Valid()
      reads this
    {
      curShard.Some? ==> curShard.value.1 <= |curShard.value.0|
    }

    /** The bytes still to be read. */
    ghost function Unread(): seq<byte>
      requires Valid()
      reads this
    {
      (if curShard.Some? then curShard.value.0[curShard.value.1..] else []) + Joined(shards)
    }

    constructor (remainingLen: nat, shards: seq<seq<byte>>)
      ensures Valid() && Unread() == Joined(shards) && this.remainingLen == remainingLen
    {
      this.remainingLen, this.shards, curShard := remainingLen, shards, None;
    }

    /** Takes the shard in progress, or else starts the next one. */
    method TakeShard() returns (cur: Option<(seq<byte>, nat)>)
      requires Valid()
      modifies this`curShard, this`shards
      ensures curShard.None?
      ensures cur.Some? ==>
        && cur.value.1 <= |cur.value.0|
        && cur.value.0[cur.value.1..] + Joined(shards) == old(Unread())
        && |shards| + 1 == old(|shards| + if curShard.Some? then 1 else 0)
      ensures cur.None? ==> shards == [] && Unread() == old(Unread()) == []
    {
      cur := curShard;
      curShard := None;
      if cur.None? && shards != [] {
        cur := Some((shards[0], 0));
        shards := shards[1..];
      }
    }

    /** One turn of the loop: copies what the next shard can still give, possibly nothing. */
    method ReadShard(into: array<byte>, at: nat) returns (n: nat, exhausted: bool)
      requires Valid() && at < into.Length
      modifies this`curShard, this`shards, into
      ensures Valid()
      ensures exhausted ==> n == 0 && Unread() == old(Unread()) == []
      ensures at + n <= into.Length && n <= |old(Unread())|
      ensures into[..] == old(into[..])[..at] + old(Unread())[..n] + old(into[..])[at + n..]
      ensures Unread() == old(Unread())[n..]
      ensures !exhausted ==> n > 0 || Left() < old(Left())
      ensures Left() <= old(Left())
    {
      hide Joined;
      var cur := TakeShard();
      if cur.None? {
        return 0, true;
      }
      var (activeShard, inShard) := cur.value;
      if inShard >= |activeShard| {
        return 0, false;
      }
      n, exhausted := Min(into.Length - at, |activeShard| - inShard), false;
      Advance(old(Unread()), activeShard, inShard, n, Joined(shards));
      Copy(into, at, activeShard, inShard, n);
      curShard := Some((activeShard, inShard + n));
    }

    /** How many shards are unfinished. */
    ghost function Left(): nat
      reads this
    {
      |shards| + if curShard.Some? then 1 else 0
    }

    /** Copies shard after shard until `into` is full or no shard is left. */
    method Fill(into: array<byte>) returns (readBytes: nat)
      requires Valid()
      modifies this`curShard, this`shards, into
      ensures Valid() && readBytes == Min(into.Length, |old(Unread())|)
      ensures into[..] == old(Unread())[..readBytes] + old(into[..])[readBytes..]
      ensures Unread() == old(Unread())[readBytes..]
    {
      hide *;
      ghost var all, start := Unread(), into[..];
      readBytes := 0;
      NothingCopied(start, all);
      var exhausted := false;
      while !exhausted && readBytes != into.Length
        invariant Valid() && readBytes <= into.Length && readBytes <= |all|
        invariant Copied(into[..], all, start, readBytes) && Unread() == all[readBytes..]
        invariant exhausted ==> readBytes == |all|
        decreases !exhausted, Left(), into.Length - readBytes
      {
        ghost var buffer := into[..];
        var n;
        n, exhausted := ReadShard(into, readBytes);
        Overwrite(buffer, into[..], all, start, readBytes, n);
        readBytes := readBytes + n;
      }
      MostCopied(into[..], all, start, readBytes);
    }

    /**
     Fills `into` from the front of the unread bytes. It succeeds exactly when there are
     enough of them, and otherwise delivers all there are.
     */
    method Read(into: array<byte>) returns (ok: bool)
      requires Valid()
      modifies this, into
      ensures Valid()
      ensures ok <==> into.Length <= |old(Unread())|
      ensures var k := Min(into.Length, |old(Unread())|);
        && into[..] == old(Unread())[..k] + old(into[..])[k..]
        && Unread() == old(Unread())[k..]
        && remainingLen == (old(remainingLen) - k) % USIZE
    {
      var readBytes := Fill(into);
      remainingLen := (remainingLen - readBytes) % USIZE;
      ok := readBytes == into.Length;
    }
  }

  /** Moving `n` bytes forward in the active shard moves `n` bytes forward in the whole. */
  lemma Advance(all: seq<byte>, active: seq<byte>, i: nat, n: nat, rest: seq<byte>)
    requires i + n <= |active| && active[i..] + rest == all
    ensures n <= |all| && active[i..i + n] == all[..n] && active[i + n..] + rest == all[n..]
  {
    assert active[i..i + n] == (active[i..] + rest)[..n];
    assert active[i + n..] + rest == (active[i..] + rest)[n..];
  }

  /** The first `k` bytes of `buffer` are those of `all`; the others are as they were. */
  ghost predicate Copied(buffer: seq<byte>, all: seq<byte>, start: seq<byte>, k: nat) {
    k <= |all| && k <= |start| && buffer == all[..k] + start[k..]
  }

  lemma NothingCopied(start: seq<byte>, all: seq<byte>)
    ensures Copied(start, all, start, 0) && all[0..] == all
  {
  }

  lemma Overwrite(before: seq<byte>, after: seq<byte>, all: seq<byte>, start: seq<byte>, at: nat, n: nat)
    requires Copied(before, all, start, at) && at + n <= |all| && at + n <= |start|
    requires after == before[..at] + all[at..][..n] + before[at + n..]
    ensures Copied(after, all, start, at + n) && all[at..][n..] == all[at + n..]
  {
  }

  lemma MostCopied(buffer: seq<byte>, all: seq<byte>, start: seq<byte>, k: nat)
    requires Copied(buffer, all, start, k) && (k == |all| || k == |start|)
    ensures k == Min(|start|, |all|) && buffer == all[..k] + start[k..]
  {
  }

  /** Copies the `n` bytes of `shard` from position `from` to position `at` of the buffer. */
  method Copy(into: array<byte>, at: nat, shard: seq<byte>, from: nat, n: nat)
    requires at + n <= into.Length && from + n <= |shard|
    modifies into
    ensures into[..] == old(into[..])[..at] + shard[from..from + n] + old(into[..])[at + n..]
  {
    forall i | 0 <= i < n {
      into[at + i] := shard[from + i];
    }
  }

  // ---- Any sequence of reads ----

  /** What reads of the given sizes deliver from `data`, and what they leave. */
  function Reads(data: seq<byte>, sizes: seq<nat>): (seq<seq<byte>>, seq<byte>) {
    if sizes == [] then ([], data)
    else
      var k := Min(sizes[|sizes| - 1], |Reads(data, sizes[..|sizes| - 1]).1|);
      var (pieces, rest) := Reads(data, sizes[..|sizes| - 1]);
      (pieces + [rest[..k]], rest[k..])
  }

  function Sum(sizes: seq<nat>): nat {
    if sizes == [] then 0 else Sum(sizes[..|sizes| - 1]) + sizes[|sizes| - 1]
  }

  lemma NoReads(data: seq<byte>)
    ensures Reads(data, []) == ([], data)
  {
  }

  lemma OneMoreRead(data: seq<byte>, sizes: seq<nat>, n: nat)
    ensures var (pieces, rest) := Reads(data, sizes);
      var k := Min(n, |rest|);
      k <= |rest| && Reads(data, sizes + [n]) == (pieces + [rest[..k]], rest[k..])
  {
    assert (sizes + [n])[..|sizes|] == sizes;
  }

  /** Reads into a fresh buffer; `piece` is the part of it that was filled. */
  method ReadOne(input: ShardInput, size: nat) returns (ghost piece: seq<byte>, ok: bool)
    requires input.Valid()
    modifies input
    ensures input.Valid()
    ensures var all := old(input.Unread()); var k := Min(size, |all|);
      k <= |all| && piece == all[..k] && input.Unread() == all[k..]
    ensures ok <==> |piece| == size
    ensures old(input.remainingLen) == |old(input.Unread())| < USIZE ==> input.remainingLen == |input.Unread()|
  {
    hide Joined;
    ghost var all := input.Unread();
    var buffer := new byte[size];
    ok := input.Read(buffer);
    ghost var k := Min(size, |all|);
    piece := all[..k];
    assert buffer[..k] == piece;
  }

  /** Reads one buffer of each size in turn, going on after a failure. */
  method ReadMany(input: ShardInput, sizes: seq<nat>) returns (ghost pieces: seq<seq<byte>>, oks: seq<bool>)
    requires input.Valid()
    modifies input
    ensures input.Valid() && (pieces, input.Unread()) == Reads(old(input.Unread()), sizes)
    ensures |oks| == |pieces| == |sizes| && forall i | 0 <= i < |sizes| :: oks[i] <==> |pieces[i]| == sizes[i]
    ensures old(input.remainingLen) == |old(input.Unread())| < USIZE ==> input.remainingLen == |input.Unread()|
  {
    hide *;
    ghost var all := input.Unread();
    pieces, oks := [], [];
    NoReads(all);
    assert sizes[..0] == [];
    for i := 0 to |sizes|
      invariant input.Valid() && (pieces, input.Unread()) == Reads(all, sizes[..i])
      invariant |oks| == |pieces| == i && forall j | 0 <= j < i :: oks[j] <==> |pieces[j]| == sizes[j]
      invariant |input.Unread()| <= |all|
      invariant old(input.remainingLen) == |all| < USIZE ==> input.remainingLen == |input.Unread()|
    {
      ghost var piece;
      var ok;
      OneMoreRead(all, sizes[..i], sizes[i]);
      assert sizes[..i + 1] == sizes[..i] + [sizes[i]];
      piece, ok := ReadOne(input, sizes[i]);
      pieces, oks := pieces + [piece], oks + [ok];
    }
    assert sizes[..|sizes|] == sizes;
  }

  /** Successive reads cut the data into consecutive pieces and lose nothing. */
  lemma {:induction false} ReadsPartition(data: seq<byte>, sizes: seq<nat>)
    ensures var (pieces, rest) := Reads(data, sizes);
      && |pieces| == |sizes|
      && Joined(pieces) + rest == data
      && |rest| == (if Sum(sizes) <= |data| then |data| - Sum(sizes) else 0)
  {
    if sizes != [] {
      var before := sizes[..|sizes| - 1];
      ReadsPartition(data, before);
      var (pieces, rest) := Reads(data, before);
      var k := Min(sizes[|sizes| - 1], |rest|);
      JoinedAppend(pieces, rest[..k]);
      assert Joined(pieces) + rest[..k] + rest[k..] == Joined(pieces) + rest;
    }
  }

  /** A read delivers its full size exactly when it is empty or the sizes so far fit in the data. */
  lemma {:induction false} ReadSucceedsExactly(data: seq<byte>, sizes: seq<nat>, n: nat)
    ensures var pieces := Reads(data, sizes + [n]).0;
      |pieces| == |sizes| + 1 && (|pieces[|sizes|]| == n <==> n == 0 || Sum(sizes) + n <= |data|)
  {
    ReadsPartition(data, sizes);
    assert (sizes + [n])[..|sizes|] == sizes;
  }
}

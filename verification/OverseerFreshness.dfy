/**
 Fresh or stale: the status a head is announced with agrees with the history of
 announcements, through a cache that remembers a bounded number of heads.
 */
module OverseerFreshness {
  import opened Options
  import opened Sets
  import opened Overseer
  import opened OverseerDeltas

  /** The heads announced as activated, in order. */
  function Activations(signals: seq<Signal>): seq<Hash> {
    if signals == [] then []
    else
      Activations(signals[..|signals| - 1]) +
      match signals[|signals| - 1]
      case ActiveLeaves(u) => if u.activated.Some? then [u.activated.value.hash] else []
      case BlockFinalized(_, _) => []
  }

  /** The distinct heads of a history, most recently activated first. */
  function Recency(acts: seq<Hash>): seq<Hash> {
    if acts == [] then []
    else [acts[|acts| - 1]] + Without(Recency(acts[..|acts| - 1]), acts[|acts| - 1])
  }

  /** `h` occurs in `acts`, and fewer than `n` distinct heads have been activated since. */
  ghost predicate AmongLast(acts: seq<Hash>, h: Hash, n: nat) {
    exists j :: 0 <= j < |acts| && acts[j] == h && |Elements(acts[j + 1..])| < n
  }

  ghost predicate Distinct(s: seq<Hash>) {
    forall i, j | 0 <= i < j < |s| :: s[i] != s[j]
  }

  // ---- Sequences without duplicates ----

  lemma {:induction false} WithoutElements(s: seq<Hash>, h: Hash)
    ensures forall x :: x in Without(s, h) <==> x in s && x != h
  {
    if s != [] {
      WithoutElements(s[1..], h);
    }
  }

  lemma DistinctTail(s: seq<Hash>)
    requires Distinct(s) && s != []
    ensures Distinct(s[1..]) && s[0] !in s[1..]
  {
  }

  lemma DistinctCons(h: Hash, s: seq<Hash>)
    requires Distinct(s) && h !in s
    ensures Distinct([h] + s)
  {
    var all := [h] + s;
    assert forall i | 0 < i < |all| :: all[i] == s[i - 1] && all[i] in s;
  }

  lemma {:induction false} WithoutDistinct(s: seq<Hash>, h: Hash)
    requires Distinct(s)
    ensures Distinct(Without(s, h))
  {
    if s != [] {
      DistinctTail(s);
      WithoutDistinct(s[1..], h);
      WithoutElements(s[1..], h);
      hide Distinct;
      if s[0] != h {
        DistinctCons(s[0], Without(s[1..], h));
      }
    }
  }

  lemma {:induction false} WithoutAbsent(s: seq<Hash>, h: Hash)
    requires h !in s
    ensures Without(s, h) == s
  {
    if s != [] {
      WithoutAbsent(s[1..], h);
    }
  }

  lemma TakeNone(s: seq<Hash>)
    ensures Take(s, 0) == []
  {
  }

  lemma TakeStep(s: seq<Hash>, n: nat)
    requires s != [] && n > 0
    ensures Take(s, n) == [s[0]] + Take(s[1..], n - 1)
  {
    if |s| > n {
      assert s[..n] == [s[0]] + s[1..][..n - 1];
    }
  }

  lemma TakeTake(s: seq<Hash>, n: nat)
    ensures Take(Take(s, n), n) == Take(s, n)
    ensures forall x | x in Take(s, n) :: x in s
  {
  }

  lemma WithoutCons(x: Hash, s: seq<Hash>, h: Hash)
    ensures Without([x] + s, h) == if x == h then Without(s, h) else [x] + Without(s, h)
  {
    assert ([x] + s)[1..] == s;
  }

  lemma TakeCons(x: Hash, s: seq<Hash>, n: nat)
    requires n > 0
    ensures Take([x] + s, n) == [x] + Take(s, n - 1)
  {
    TakeStep([x] + s, n);
    assert ([x] + s)[1..] == s;
  }

  lemma NothingToTake(h: Hash, n: nat)
    ensures Take(Without(Take([], n + 1), h), n) == Take(Without([], h), n)
  {
  }

  /** The head itself is removed, and what follows has no other occurrence of it. */
  lemma WithoutTakeHead(h: Hash, tail: seq<Hash>, n: nat)
    requires h !in tail
    ensures Take(Without(Take([h] + tail, n + 1), h), n) == Take(Without([h] + tail, h), n)
  {
    hide *;
    TakeCons(h, tail, n + 1);
    TakeTake(tail, n);
    WithoutCons(h, Take(tail, n), h);
    WithoutCons(h, tail, h);
    WithoutAbsent(Take(tail, n), h);
    WithoutAbsent(tail, h);
  }

  /** Another head stays in front. */
  lemma WithoutTakeOther(x: Hash, tail: seq<Hash>, h: Hash, n: nat)
    requires x != h && n > 0
    requires Take(Without(Take(tail, n), h), n - 1) == Take(Without(tail, h), n - 1)
    ensures Take(Without(Take([x] + tail, n + 1), h), n) == Take(Without([x] + tail, h), n)
  {
    hide *;
    TakeCons(x, tail, n + 1);
    WithoutCons(x, Take(tail, n), h);
    WithoutCons(x, tail, h);
    TakeCons(x, Without(Take(tail, n), h), n);
    TakeCons(x, Without(tail, h), n);
  }

  lemma {:induction false} WithoutTake(s: seq<Hash>, h: Hash, n: nat)
    requires Distinct(s)
    ensures Take(Without(Take(s, n + 1), h), n) == Take(Without(s, h), n)
  {
    hide *;
    if s == [] {
      NothingToTake(h, n);
    } else {
      DistinctTail(s);
      assert s == [s[0]] + s[1..];
      if s[0] == h {
        WithoutTakeHead(h, s[1..], n);
      } else if n == 0 {
        TakeNone(Without(Take(s, 1), h));
        TakeNone(Without(s, h));
      } else {
        WithoutTake(s[1..], h, n - 1);
        WithoutTakeOther(s[0], s[1..], h, n);
      }
    }
  }

  lemma {:induction false} RecencyDistinct(acts: seq<Hash>)
    ensures Distinct(Recency(acts))
    ensures forall x :: x in Recency(acts) <==> x in acts
  {
    if acts != [] {
      var before, h := acts[..|acts| - 1], acts[|acts| - 1];
      RecencyDistinct(before);
      WithoutDistinct(Recency(before), h);
      WithoutElements(Recency(before), h);
      hide Distinct, Without;
      DistinctCons(h, Without(Recency(before), h));
      assert acts == before + [h];
    }
  }

  /** The cache is the front of the recency order, whatever was evicted on the way. */
  lemma PutIsRecency(acts: seq<Hash>, h: Hash)
    ensures Put(Take(Recency(acts), KNOWN_LEAVES_CACHE_SIZE), h)
         == Take(Recency(acts + [h]), KNOWN_LEAVES_CACHE_SIZE)
  {
    var r, n := Recency(acts), KNOWN_LEAVES_CACHE_SIZE;
    assert Recency(acts + [h]) == [h] + Without(r, h) by {
      assert (acts + [h])[..|acts|] == acts;
    }
    RecencyDistinct(acts);
    WithoutTake(r, h, n - 1);
    TakeCons(h, Without(Take(r, n), h), n);
    TakeCons(h, Without(r, h), n);
  }

  // ---- Position in the recency order counts distinct later heads ----

  function Ahead(r: seq<Hash>, h: Hash): set<Hash> {
    if r == [] || r[0] == h then {} else {r[0]} + Ahead(r[1..], h)
  }

  lemma {:induction false} AheadWithout(r: seq<Hash>, x: Hash, h: Hash)
    requires x != h
    ensures Ahead(Without(r, x), h) == Ahead(r, h) - {x}
  {
    if r != [] && r[0] != h {
      AheadWithout(r[1..], x, h);
      if r[0] != x {
        assert Without(r, x)[1..] == Without(r[1..], x);
      }
    }
  }

  lemma {:induction false} AheadElements(r: seq<Hash>, h: Hash)
    ensures forall x | x in Ahead(r, h) :: x in r
  {
    if r != [] && r[0] != h {
      AheadElements(r[1..], h);
    }
  }

  lemma {:induction false} AheadBound(r: seq<Hash>, h: Hash, n: nat)
    requires Distinct(r) && h in r
    ensures h in Take(r, n) <==> |Ahead(r, h)| < n
  {
    if n == 0 {
      TakeNone(r);
    } else if r[0] == h {
      TakeStep(r, n);
    } else {
      var tail := r[1..];
      DistinctTail(r);
      hide Distinct, Take;
      assert h in tail;
      AheadElements(tail, h);
      AheadBound(tail, h, n - 1);
      TakeStep(r, n);
      assert |Ahead(r, h)| == 1 + |Ahead(tail, h)|;
    }
  }

  /** Ahead of `h` are exactly the heads activated after `h` last was. */
  lemma {:induction false} AheadIsLater(acts: seq<Hash>, h: Hash, j: nat)
    requires j < |acts| && acts[j] == h && h !in acts[j + 1..]
    ensures Ahead(Recency(acts), h) == Elements(acts[j + 1..])
    decreases |acts|
  {
    var before, x := acts[..|acts| - 1], acts[|acts| - 1];
    if j == |acts| - 1 {
      assert acts[j + 1..] == [];
    } else {
      assert before[j + 1..] == acts[j + 1..][..|acts| - j - 2];
      assert acts[j + 1..] == before[j + 1..] + [x];
      AheadIsLater(before, h, j);
      AheadWithout(Recency(before), x, h);
      assert Recency(acts)[1..] == Without(Recency(before), x);
    }
  }

  lemma {:induction false} LastOccurrence(acts: seq<Hash>, h: Hash, i: nat) returns (j: nat)
    requires i < |acts| && acts[i] == h
    ensures i <= j < |acts| && acts[j] == h && h !in acts[j + 1..]
    decreases |acts| - i
  {
    if h !in acts[i + 1..] {
      j := i;
    } else {
      var k :| 0 <= k < |acts[i + 1..]| && acts[i + 1..][k] == h;
      j := LastOccurrence(acts, h, i + 1 + k);
    }
  }

  /** Being cached is being among the last `n` distinct heads activated. */
  lemma CachedExactly(acts: seq<Hash>, h: Hash, n: nat)
    ensures h in Take(Recency(acts), n) <==> AmongLast(acts, h, n)
  {
    RecencyDistinct(acts);
    if h in acts {
      var i :| 0 <= i < |acts| && acts[i] == h;
      var j := LastOccurrence(acts, h, i);
      AheadIsLater(acts, h, j);
      AheadBound(Recency(acts), h, n);
      if AmongLast(acts, h, n) {
        var k :| 0 <= k < |acts| && acts[k] == h && |Elements(acts[k + 1..])| < n;
        assert k <= j;
        assert Elements(acts[j + 1..]) <= Elements(acts[k + 1..]) by {
          assert acts[j + 1..] == acts[k + 1..][j - k..];
        }
        SubsetSize(Elements(acts[j + 1..]), Elements(acts[k + 1..]));
      }
    } else {
      assert h !in Take(Recency(acts), n);
    }
  }

  // ---- Runs ----

  ghost predicate Activates(s: Signal) {
    s.ActiveLeaves? && s.update.activated.Some?
  }

  /** Each announced status tells whether the head was among the last ones announced before. */
  ghost predicate StatusesTrue(signals: seq<Signal>) {
    forall i | 0 <= i < |signals| && Activates(signals[i]) ::
      var leaf := signals[i].update.activated.value;
      leaf.status.Fresh? <==> !AmongLast(Activations(signals[..i]), leaf.hash, KNOWN_LEAVES_CACHE_SIZE)
  }

  ghost predicate Remembers(st: State) {
    && st.known == Take(Recency(Activations(st.signals)), KNOWN_LEAVES_CACHE_SIZE)
    && StatusesTrue(st.signals)
  }

  lemma ActivationsOneMore(signals: seq<Signal>, s: Signal)
    ensures Activations(signals + [s]) ==
            Activations(signals) + if Activates(s) then [s.update.activated.value.hash] else []
  {
  }

  lemma StatusesOneMore(signals: seq<Signal>, s: Signal)
    requires StatusesTrue(signals)
    requires Activates(s) ==>
      var leaf := s.update.activated.value;
      leaf.status.Fresh? <==> !AmongLast(Activations(signals), leaf.hash, KNOWN_LEAVES_CACHE_SIZE)
    ensures StatusesTrue(signals + [s])
  {
    var all := signals + [s];
    forall i | 0 <= i < |all| && Activates(all[i])
      ensures var leaf := all[i].update.activated.value;
        leaf.status.Fresh? <==> !AmongLast(Activations(all[..i]), leaf.hash, KNOWN_LEAVES_CACHE_SIZE)
    {
      if i < |signals| {
        assert all[..i] == signals[..i] && all[i] == signals[i];
      } else {
        assert all[..i] == signals;
      }
    }
  }

  /** Announcing an activation decided by the cache, with the cache updated to match. */
  lemma AnnounceRemembers(st: State, known: seq<Hash>, u: Update)
    requires known == Take(Recency(Activations(st.signals)), KNOWN_LEAVES_CACHE_SIZE) && StatusesTrue(st.signals)
    requires u.activated.None? ==> st.known == known
    requires u.activated.Some? ==>
      && st.known == Put(known, u.activated.value.hash)
      && (u.activated.value.status.Fresh? <==> u.activated.value.hash !in known)
    ensures Remembers(Announce(st, u))
  {
    hide Recency, Put, Take, AmongLast, StatusesTrue, Activations;
    var s := ActiveLeaves(u);
    ActivationsOneMore(st.signals, s);
    if u.activated.Some? {
      CachedExactly(Activations(st.signals), u.activated.value.hash, KNOWN_LEAVES_CACHE_SIZE);
      PutIsRecency(Activations(st.signals), u.activated.value.hash);
    } else {
      assert Activations(st.signals) + [] == Activations(st.signals);
    }
    StatusesOneMore(st.signals, s);
  }

  lemma ActivateKnows(sup: Hash -> bool, st: State, h: Hash, number: nat, parent: Option<Hash>)
    ensures var (st', a) := Activate(sup, st, h, parent); var leaf := LeafOf(h, number, a);
      && st'.signals == st.signals
      && (leaf.None? ==> st'.known == st.known)
      && (leaf.Some? ==> leaf.value.hash == h && st'.known == Put(st.known, h)
                         && (leaf.value.status.Fresh? <==> h !in st.known))
  {
  }

  lemma DropParentKnows(st: State, parent: Hash)
    ensures DropParent(st, parent).known == st.known && DropParent(st, parent).signals == st.signals
  {
  }

  lemma {:induction false} DeactivateAllKnows(st: State, hs: seq<Hash>)
    ensures DeactivateAll(st, hs).known == st.known && DeactivateAll(st, hs).signals == st.signals
  {
    hide Settle;
    if hs != [] {
      DeactivateAllKnows(st, hs[..|hs| - 1]);
    }
  }

  lemma StartLeafRemembers(sup: Hash -> bool, st: State, leaf: (Hash, nat))
    requires Remembers(st)
    ensures Remembers(StartLeaf(sup, st, leaf))
  {
    hide Activate, Recency, Activations, StatusesTrue, Take, Put;
    var (h, number) := leaf;
    var st0 := st.(active := st.active[h := number]);
    ActivateKnows(sup, st0, h, number, None);
    var (st1, a) := Activate(sup, st0, h, None);
    AnnounceRemembers(st1, st.known, Update(LeafOf(h, number, a), []));
  }

  lemma ImportRemembers(sup: Hash -> bool, st: State, b: BlockInfo)
    requires Remembers(st)
    ensures Remembers(ImportBlock(sup, st, b))
  {
    hide Activate, DropParent, CleanUp, Recency, Activations, StatusesTrue, Take, Put;
    if b.hash !in st.active {
      var st0 := st.(active := st.active[b.hash := b.number]);
      ActivateKnows(sup, st0, b.hash, b.number, Some(b.parentHash));
      var (st1, a) := Activate(sup, st0, b.hash, Some(b.parentHash));
      var st2 := DropParent(st1, b.parentHash);
      DropParentKnows(st1, b.parentHash);
      CleanUpEffect(st2);
      AnnounceRemembers(CleanUp(st2), st.known,
        Update(LeafOf(b.hash, b.number, a), if b.parentHash in st1.active then [b.parentHash] else []));
    }
  }

  lemma FinalizeRemembers(st: State, b: BlockInfo, order: seq<Hash>)
    requires Remembers(st)
    ensures Remembers(FinalizeBlock(st, b, order))
  {
    hide DeactivateAll, Recency, Activations, StatusesTrue, Take;
    var st0 := st.(active := st.active - Pruned(st, b));
    DeactivateAllKnows(st0, order);
    var st1 := DeactivateAll(st0, order);
    var s := BlockFinalized(b.hash, b.number);
    ActivationsOneMore(st1.signals, s);
    assert Activations(st1.signals) + [] == Activations(st1.signals);
    StatusesOneMore(st1.signals, s);
    AnnounceRemembers(st1.(signals := st1.signals + [s]), st.known, Update(None, order));
  }

  lemma {:induction false} StartRemembers(sup: Hash -> bool, leaves: seq<(Hash, nat)>)
    ensures Remembers(Start(sup, leaves))
  {
    if leaves != [] {
      StartRemembers(sup, leaves[..|leaves| - 1]);
      StartLeafRemembers(sup, Start(sup, leaves[..|leaves| - 1]), leaves[|leaves| - 1]);
    }
  }

  /** In every run, cache and statuses are what the history of announcements says. */
  lemma {:induction false} RunRemembers(sup: Hash -> bool, leaves: seq<(Hash, nat)>, evs: seq<Event>)
    ensures Remembers(Run(sup, leaves, evs))
  {
    if evs == [] {
      StartRemembers(sup, leaves);
    } else {
      var before, e := evs[..|evs| - 1], evs[|evs| - 1];
      RunRemembers(sup, leaves, before);
      var st := Run(sup, leaves, before);
      match e {
        case Import(b) => ImportRemembers(sup, st, b);
        case Finalize(b, order) => FinalizeRemembers(st, b, order);
        case Ask(_, _) =>
        case GiveUp(_) =>
      }
    }
  }

  /** A head is announced fresh exactly when it is not among the last ones announced. */
  lemma {:induction false} FreshExactly(sup: Hash -> bool, leaves: seq<(Hash, nat)>, evs: seq<Event>, i: nat)
    requires var signals := Run(sup, leaves, evs).signals; i < |signals| && Activates(signals[i])
    ensures var signals := Run(sup, leaves, evs).signals; var leaf := signals[i].update.activated.value;
      leaf.status.Fresh? <==> !AmongLast(Activations(signals[..i]), leaf.hash, 28800)
  {
    RunRemembers(sup, leaves, evs);
  }

  lemma {:induction false} ActivationsPrefix(signals: seq<Signal>, i: nat)
    requires i <= |signals|
    ensures Activations(signals[..i]) <= Activations(signals)
    ensures forall k | 0 <= k < i && Activates(signals[k]) ::
      signals[k].update.activated.value.hash in Activations(signals[..i])
    decreases |signals|
  {
    if i < |signals| {
      var before := signals[..|signals| - 1];
      assert before[..i] == signals[..i];
      ActivationsPrefix(before, i);
      assert forall k | 0 <= k < i :: before[k] == signals[k];
    } else if signals != [] {
      var before := signals[..|signals| - 1];
      ActivationsPrefix(before, i - 1);
      assert signals[..i] == signals && before[..i - 1] == before;
      assert forall k | 0 <= k < i - 1 :: before[k] == signals[k];
    }
  }

  /** While the run fits in the cache, no head is announced fresh twice. */
  lemma {:induction false} FreshOnce(sup: Hash -> bool, leaves: seq<(Hash, nat)>, evs: seq<Event>, i: nat, j: nat)
    requires var signals := Run(sup, leaves, evs).signals;
      && i < j < |signals| && Activates(signals[i]) && Activates(signals[j])
      && signals[i].update.activated.value.hash == signals[j].update.activated.value.hash
      && |Elements(Activations(signals))| <= 28800
    ensures Run(sup, leaves, evs).signals[j].update.activated.value.status.Stale?
  {
    var signals := Run(sup, leaves, evs).signals;
    var h := signals[j].update.activated.value.hash;
    FreshExactly(sup, leaves, evs, j);
    ActivationsPrefix(signals, j);
    SeenWhileFitting(Activations(signals[..j]), Activations(signals), h, KNOWN_LEAVES_CACHE_SIZE);
  }

  lemma SeenWhileFitting(acts: seq<Hash>, all: seq<Hash>, h: Hash, n: nat)
    requires acts <= all && h in acts && |Elements(all)| <= n
    ensures AmongLast(acts, h, n)
  {
    var k :| 0 <= k < |acts| && acts[k] == h;
    var p := LastOccurrence(acts, h, k);
    var later := Elements(acts[p + 1..]);
    assert later + {h} <= Elements(all);
    SubsetSize(later + {h}, Elements(all));
    assert |later + {h}| == |later| + 1;
  }
}

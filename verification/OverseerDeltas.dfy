/**
 The broadcast deltas carry the whole picture: replaying them from startup gives
 exactly the active leaves that support parachains, and those are the leaves with a span.
 */
module OverseerDeltas {
  import opened Options
  import opened Overseer

  function Elements(hs: seq<Hash>): set<Hash> {
    set h | h in hs
  }

  /** A subsystem's view after one more signal: activate first, then deactivate. */
  function Follow(view: map<Hash, nat>, s: Signal): map<Hash, nat> {
    match s
    case BlockFinalized(_, _) => view
    case ActiveLeaves(u) =>
      var view1 := if u.activated.Some? then view[u.activated.value.hash := u.activated.value.number] else view;
      view1 - Elements(u.deactivated)
  }

  function Replay(signals: seq<Signal>): map<Hash, nat> {
    if signals == [] then map[] else Follow(Replay(signals[..|signals| - 1]), signals[|signals| - 1])
  }

  function Supported(sup: Hash -> bool, active: map<Hash, nat>): map<Hash, nat> {
    map h | h in active && sup(h) :: active[h]
  }

  ghost predicate InStep(sup: Hash -> bool, st: State) {
    && Replay(st.signals) == Supported(sup, st.active)
    && st.spans.Keys == Supported(sup, st.active).Keys
  }

  lemma ReplayOneMore(signals: seq<Signal>, s: Signal)
    ensures Replay(signals + [s]) == Follow(Replay(signals), s)
  {
  }

  /** An empty update is not broadcast, and would have changed nothing. */
  lemma AnnounceReplays(st: State, u: Update)
    ensures Replay(Announce(st, u).signals) == Follow(Replay(st.signals), ActiveLeaves(u))
  {
  }

  /** One activation and some deactivations, applied to the supported leaves of `active`. */
  lemma FollowSupported(sup: Hash -> bool, active: map<Hash, nat>, u: Update, h: Hash, number: nat)
    requires u.activated.Some? <==> sup(h)
    requires u.activated.Some? ==> u.activated.value.hash == h && u.activated.value.number == number
    ensures Follow(Supported(sup, active), ActiveLeaves(u))
         == Supported(sup, active[h := number] - Elements(u.deactivated))
  {
  }

  lemma FollowPruned(sup: Hash -> bool, active: map<Hash, nat>, gone: seq<Hash>)
    ensures Follow(Supported(sup, active), ActiveLeaves(Update(None, gone)))
         == Supported(sup, active - Elements(gone))
  {
  }

  lemma ActivateEffect(sup: Hash -> bool, st: State, h: Hash, parent: Option<Hash>)
    ensures var (st', a) := Activate(sup, st, h, parent);
      && st'.active == st.active
      && st'.signals == st.signals
      && st'.asked == st.asked && st'.canceled == st.canceled
      && st'.spans.Keys == st.spans.Keys + (if sup(h) then {h} else {})
      && (a.Some? <==> sup(h))
  {
  }

  lemma DropParentEffect(st: State, parent: Hash)
    ensures DropParent(st, parent).active == st.active - {parent}
    ensures DropParent(st, parent).signals == st.signals
    ensures DropParent(st, parent).asked == st.asked && DropParent(st, parent).canceled == st.canceled
    ensures DropParent(st, parent).spans.Keys ==
            st.spans.Keys - (if parent in st.active then {parent} else {})
  {
  }

  lemma CleanUpEffect(st: State)
    ensures CleanUp(st).active == st.active && CleanUp(st).spans == st.spans
    ensures CleanUp(st).signals == st.signals && CleanUp(st).known == st.known
    ensures CleanUp(st).asked == st.asked && CleanUp(st).canceled == st.canceled
  {
  }

  lemma {:induction false} DeactivateAllEffect(st: State, hs: seq<Hash>)
    ensures DeactivateAll(st, hs).spans.Keys == st.spans.Keys - Elements(hs)
    ensures DeactivateAll(st, hs).active == st.active
    ensures DeactivateAll(st, hs).signals == st.signals
  {
    hide Settle;
    if hs != [] {
      DeactivateAllEffect(st, hs[..|hs| - 1]);
      assert hs == hs[..|hs| - 1] + [hs[|hs| - 1]];
    }
  }

  lemma StartLeafInStep(sup: Hash -> bool, st: State, leaf: (Hash, nat))
    requires InStep(sup, st)
    ensures InStep(sup, StartLeaf(sup, st, leaf))
  {
    var (h, number) := leaf;
    var st0 := st.(active := st.active[h := number]);
    ActivateEffect(sup, st0, h, None);
    var (st1, a) := Activate(sup, st0, h, None);
    var u := Update(LeafOf(h, number, a), []);
    hide Activate, Follow, Replay;
    AnnounceReplays(st1, u);
    FollowSupported(sup, st.active, u, h, number);
    assert st0.active - Elements([]) == st0.active;
  }

  lemma KeysFollow(sup: Hash -> bool, active: map<Hash, nat>, h: Hash, number: nat, parent: Hash)
    ensures Supported(sup, active[h := number] - {parent}).Keys ==
            Supported(sup, active).Keys + (if sup(h) then {h} else {})
            - (if parent in active[h := number] then {parent} else {})
  {
  }

  lemma ImportInStep(sup: Hash -> bool, st: State, b: BlockInfo)
    requires InStep(sup, st)
    ensures InStep(sup, ImportBlock(sup, st, b))
  {
    hide Activate, Follow, Replay, DropParent, CleanUp, Supported;
    if b.hash !in st.active {
      var st0 := st.(active := st.active[b.hash := b.number]);
      ActivateEffect(sup, st0, b.hash, Some(b.parentHash));
      var (st1, a) := Activate(sup, st0, b.hash, Some(b.parentHash));
      DropParentEffect(st1, b.parentHash);
      var gone := if b.parentHash in st1.active then [b.parentHash] else [];
      var u := Update(LeafOf(b.hash, b.number, a), gone);
      var st2 := DropParent(st1, b.parentHash);
      CleanUpEffect(st2);
      AnnounceReplays(CleanUp(st2), u);
      FollowSupported(sup, st.active, u, b.hash, b.number);
      assert st0.active - Elements(gone) == st0.active - {b.parentHash};
      KeysFollow(sup, st.active, b.hash, b.number, b.parentHash);
    }
  }

  lemma FinalizeInStep(sup: Hash -> bool, st: State, b: BlockInfo, order: seq<Hash>)
    requires InStep(sup, st) && Visits(order, Pruned(st, b))
    ensures InStep(sup, FinalizeBlock(st, b, order))
  {
    var st0 := st.(active := st.active - Pruned(st, b));
    DeactivateAllEffect(st0, order);
    assert Elements(order) == Pruned(st, b);
    var st1 := DeactivateAll(st0, order);
    var st2 := st1.(signals := st1.signals + [BlockFinalized(b.hash, b.number)]);
    ReplayOneMore(st1.signals, BlockFinalized(b.hash, b.number));
    hide Replay, DeactivateAll;
    AnnounceReplays(st2, Update(None, order));
    FollowPruned(sup, st.active, order);
  }

  lemma {:induction false} StartInStep(sup: Hash -> bool, leaves: seq<(Hash, nat)>)
    ensures InStep(sup, Start(sup, leaves))
  {
    if leaves != [] {
      StartInStep(sup, leaves[..|leaves| - 1]);
      StartLeafInStep(sup, Start(sup, leaves[..|leaves| - 1]), leaves[|leaves| - 1]);
    }
  }

  /** After any run, replaying the broadcasts gives the supported active leaves. */
  lemma {:induction false} DeltasReplayState(sup: Hash -> bool, leaves: seq<(Hash, nat)>, evs: seq<Event>)
    requires Possible(sup, leaves, evs)
    ensures Replay(Run(sup, leaves, evs).signals) == Supported(sup, Run(sup, leaves, evs).active)
    ensures Run(sup, leaves, evs).spans.Keys == Supported(sup, Run(sup, leaves, evs).active).Keys
  {
    if evs == [] {
      StartInStep(sup, leaves);
    } else {
      var before, e := evs[..|evs| - 1], evs[|evs| - 1];
      PossiblePrefix(sup, leaves, evs);
      DeltasReplayState(sup, leaves, before);
      var st := Run(sup, leaves, before);
      match e {
        case Import(b) => ImportInStep(sup, st, b);
        case Finalize(b, order) => FinalizeInStep(sup, st, b, order);
        case Ask(_, _) =>
        case GiveUp(_) =>
      }
    }
  }
}

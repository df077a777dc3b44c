/**
 The leaves and the announcements of a run, from its events alone: what is imported
 becomes a leaf and replaces its parent, finality prunes everything at or below it, and
 exactly that is broadcast.
 */
module OverseerLeaves {
  import opened Options
  import opened Overseer
  import opened OverseerDeltas

  /** The leaves the overseer is started with; a repeated hash keeps its last number. */
  function StartLeaves(leaves: seq<(Hash, nat)>): map<Hash, nat> {
    if leaves == [] then map[]
    else StartLeaves(leaves[..|leaves| - 1])[leaves[|leaves| - 1].0 := leaves[|leaves| - 1].1]
  }

  /** What survives the finality of `b`: the block itself, and leaves above it. */
  predicate Survives(h: Hash, number: nat, b: BlockInfo) {
    h == b.hash || number > b.number
  }

  /** The leaves after a run, computed from the events and nothing else. */
  function LeavesOf(leaves: seq<(Hash, nat)>, evs: seq<Event>): map<Hash, nat> {
    if evs == [] then StartLeaves(leaves)
    else
      var before := LeavesOf(leaves, evs[..|evs| - 1]);
      match evs[|evs| - 1]
      case Import(b) => if b.hash in before then before else before[b.hash := b.number] - {b.parentHash}
      case Finalize(b, _) => map h | h in before && Survives(h, before[h], b) :: before[h]
      case Ask(_, _) => before
      case GiveUp(_) => before
  }

  // ---- Leaves ----

  lemma ImportLeaves(sup: Hash -> bool, st: State, b: BlockInfo)
    ensures ImportBlock(sup, st, b).active ==
            if b.hash in st.active then st.active else st.active[b.hash := b.number] - {b.parentHash}
  {
    hide Activate, DropParent, CleanUp;
    if b.hash !in st.active {
      var st0 := st.(active := st.active[b.hash := b.number]);
      ActivateEffect(sup, st0, b.hash, Some(b.parentHash));
      var st1 := Activate(sup, st0, b.hash, Some(b.parentHash)).0;
      DropParentEffect(st1, b.parentHash);
      CleanUpEffect(DropParent(st1, b.parentHash));
    }
  }

  lemma FinalizeLeaves(st: State, b: BlockInfo, order: seq<Hash>)
    ensures FinalizeBlock(st, b, order).active ==
            map h | h in st.active && Survives(h, st.active[h], b) :: st.active[h]
  {
    hide DeactivateAll;
    DeactivateAllEffect(st.(active := st.active - Pruned(st, b)), order);
  }

  lemma {:induction false} StartedLeaves(sup: Hash -> bool, leaves: seq<(Hash, nat)>)
    ensures Start(sup, leaves).active == StartLeaves(leaves)
  {
    hide Activate;
    if leaves != [] {
      var before, leaf := leaves[..|leaves| - 1], leaves[|leaves| - 1];
      StartedLeaves(sup, before);
      var st := Start(sup, before);
      ActivateEffect(sup, st.(active := st.active[leaf.0 := leaf.1]), leaf.0, None);
    }
  }

  /** After any run the active leaves are the ones the events make. */
  lemma {:induction false} LeavesFromEvents(sup: Hash -> bool, leaves: seq<(Hash, nat)>, evs: seq<Event>)
    ensures Run(sup, leaves, evs).active == LeavesOf(leaves, evs)
  {
    if evs == [] {
      StartedLeaves(sup, leaves);
    } else {
      var before, e := evs[..|evs| - 1], evs[|evs| - 1];
      LeavesFromEvents(sup, leaves, before);
      var st := Run(sup, leaves, before);
      hide ImportBlock, FinalizeBlock, Start;
      match e {
        case Import(b) => ImportLeaves(sup, st, b);
        case Finalize(b, order) => FinalizeLeaves(st, b, order);
        case Ask(_, _) =>
        case GiveUp(_) =>
      }
    }
  }

  // ---- Announcements ----

  /** The update an import calls for, given the leaves before it. */
  ghost predicate CalledFor(sup: Hash -> bool, before: map<Hash, nat>, b: BlockInfo, u: Update) {
    && (u.activated.Some? <==> sup(b.hash))
    && (u.activated.Some? ==>
          && u.activated.value.hash == b.hash
          && u.activated.value.number == b.number
          && u.activated.value.span ==
             Span(b.hash, if b.parentHash in before && sup(b.parentHash) then Some(b.parentHash) else None))
    && u.deactivated == if b.parentHash in before || b.parentHash == b.hash then [b.parentHash] else []
  }

  lemma ActivateSpan(sup: Hash -> bool, st: State, h: Hash, parent: Hash)
    requires sup(h)
    ensures var a := Activate(sup, st, h, Some(parent)).1;
      a.Some? && a.value.0 == Span(h, if parent in st.spans then Some(parent) else None)
  {
    hide Put, Settle, Live;
  }

  lemma ImportSignals(sup: Hash -> bool, st: State, b: BlockInfo) returns (u: Update)
    requires InStep(sup, st) && b.hash !in st.active
    ensures CalledFor(sup, st.active, b, u)
    ensures ImportBlock(sup, st, b).signals ==
            st.signals + if sup(b.hash) || u.deactivated != [] then [ActiveLeaves(u)] else []
  {
    hide Activate, DropParent, CleanUp, Replay;
    var st0 := st.(active := st.active[b.hash := b.number]);
    ActivateEffect(sup, st0, b.hash, Some(b.parentHash));
    if sup(b.hash) {
      ActivateSpan(sup, st0, b.hash, b.parentHash);
    }
    var (st1, a) := Activate(sup, st0, b.hash, Some(b.parentHash));
    u := Update(LeafOf(b.hash, b.number, a), if b.parentHash in st1.active then [b.parentHash] else []);
    DropParentEffect(st1, b.parentHash);
    CleanUpEffect(DropParent(st1, b.parentHash));
  }

  lemma RunInStep(sup: Hash -> bool, leaves: seq<(Hash, nat)>, evs: seq<Event>)
    requires Possible(sup, leaves, evs)
    ensures InStep(sup, Run(sup, leaves, evs))
  {
    DeltasReplayState(sup, leaves, evs);
  }

  /** A block that is a leaf already changes nothing at all. */
  lemma {:induction false} KnownLeafIgnored(sup: Hash -> bool, leaves: seq<(Hash, nat)>, evs: seq<Event>, b: BlockInfo)
    requires b.hash in LeavesOf(leaves, evs)
    ensures Run(sup, leaves, evs + [Import(b)]) == Run(sup, leaves, evs)
  {
    hide ImportBlock, Start;
    LeavesFromEvents(sup, leaves, evs);
    assert (evs + [Import(b)])[..|evs|] == evs;
    assert ImportBlock(sup, Run(sup, leaves, evs), b) == Run(sup, leaves, evs) by {
      LeafAlready(sup, Run(sup, leaves, evs), b);
    }
  }

  lemma LeafAlready(sup: Hash -> bool, st: State, b: BlockInfo)
    requires b.hash in st.active
    ensures ImportBlock(sup, st, b) == st
  {
  }

  /** A new block is announced at once, with its number and its parent's span, and its parent is retired. */
  lemma {:induction false} ImportAnnounced(sup: Hash -> bool, leaves: seq<(Hash, nat)>, evs: seq<Event>, b: BlockInfo)
    returns (u: Update)
    requires Possible(sup, leaves, evs) && b.hash !in LeavesOf(leaves, evs)
    ensures CalledFor(sup, LeavesOf(leaves, evs), b, u)
    ensures Run(sup, leaves, evs + [Import(b)]).signals ==
            Run(sup, leaves, evs).signals + if sup(b.hash) || u.deactivated != [] then [ActiveLeaves(u)] else []
  {
    hide ImportBlock, Start, InStep, CalledFor;
    LeavesFromEvents(sup, leaves, evs);
    RunInStep(sup, leaves, evs);
    u := ImportSignals(sup, Run(sup, leaves, evs), b);
    assert (evs + [Import(b)])[..|evs|] == evs;
  }

  /**
   Finality is announced, followed by the leaves it prunes, if any: each leaf at or below
   the block other than the block itself, once, in some order.
   */
  lemma {:induction false} FinalityAnnounced(sup: Hash -> bool, leaves: seq<(Hash, nat)>, evs: seq<Event>,
                                             b: BlockInfo, order: seq<Hash>)
    requires Possible(sup, leaves, evs + [Finalize(b, order)])
    ensures var before := LeavesOf(leaves, evs);
      && (forall h :: h in order <==> h in before && before[h] <= b.number && h != b.hash)
      && (forall i, j | 0 <= i < j < |order| :: order[i] != order[j])
    ensures Run(sup, leaves, evs + [Finalize(b, order)]).signals ==
            Run(sup, leaves, evs).signals + [BlockFinalized(b.hash, b.number)]
            + if order == [] then [] else [ActiveLeaves(Update(None, order))]
  {
    var all := evs + [Finalize(b, order)];
    assert all[..|evs|] == evs && all[|evs|] == Finalize(b, order);
    PossiblePrefix(sup, leaves, all);
    LeavesFromEvents(sup, leaves, evs);
    var st := Run(sup, leaves, evs);
    hide DeactivateAll, Start, LeavesOf;
    DeactivateAllEffect(st.(active := st.active - Pruned(st, b)), order);
  }

  /** Requests and cancellations announce nothing and touch neither leaves, spans nor the cache. */
  lemma RequestsAreQuiet(sup: Hash -> bool, st: State, e: Event)
    requires e.Ask? || e.GiveUp?
    ensures var st' := Apply(sup, st, e);
      st'.signals == st.signals && st'.active == st.active && st'.spans == st.spans && st'.known == st.known
  {
    hide Live, Settle;
  }

  /** The supported ones among the leaves the overseer is started with. */
  function SupportedStart(sup: Hash -> bool, leaves: seq<(Hash, nat)>): seq<(Hash, nat)> {
    if leaves == [] then []
    else
      var last := leaves[|leaves| - 1];
      SupportedStart(sup, leaves[..|leaves| - 1]) + if sup(last.0) then [last] else []
  }

  /** `s` announces just this leaf, without a span to follow from. */
  ghost predicate Starts(s: Signal, leaf: (Hash, nat)) {
    && s.ActiveLeaves? && s.update.activated.Some? && s.update.deactivated == []
    && s.update.activated.value.hash == leaf.0
    && s.update.activated.value.number == leaf.1
    && s.update.activated.value.span == Span(leaf.0, None)
  }

  lemma StartLeafSignals(sup: Hash -> bool, st: State, leaf: (Hash, nat))
    ensures var more := StartLeaf(sup, st, leaf).signals;
      if sup(leaf.0)
      then |more| == |st.signals| + 1 && more[..|st.signals|] == st.signals && Starts(more[|st.signals|], leaf)
      else more == st.signals
  {
    hide Put, Settle, Live;
  }

  /** At startup each supported leaf is announced, in order, and nothing else is. */
  lemma {:induction false} StartAnnounced(sup: Hash -> bool, leaves: seq<(Hash, nat)>)
    ensures var signals, supported := Start(sup, leaves).signals, SupportedStart(sup, leaves);
      |signals| == |supported| && forall i | 0 <= i < |signals| :: Starts(signals[i], supported[i])
  {
    hide StartLeaf, Starts;
    if leaves != [] {
      var before, leaf := leaves[..|leaves| - 1], leaves[|leaves| - 1];
      StartAnnounced(sup, before);
      StartLeafSignals(sup, Start(sup, before), leaf);
      var signals, more := Start(sup, before).signals, Start(sup, leaves).signals;
      assert forall i | 0 <= i < |signals| :: more[i] == signals[i] by {
        assert forall i | 0 <= i < |signals| :: more[..|signals|][i] == signals[i];
      }
    }
  }
}

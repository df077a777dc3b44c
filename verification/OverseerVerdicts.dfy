/**
 Which fate a request meets: the one decided by the first announcement about its head
 after the request, unless the head was known already. A requester that gives up before
 that is dropped at the next sweep of the listeners, and never answered.
 */
module OverseerVerdicts {
  import opened Options
  import opened Overseer
  import opened OverseerDeltas
  import opened OverseerListeners

  /** What an announcement decides for those waiting for `h`; activation comes first. */
  function Verdict(s: Signal, h: Hash): Option<Fate> {
    match s
    case BlockFinalized(_, _) => None
    case ActiveLeaves(u) =>
      if u.activated.Some? && u.activated.value.hash == h then Some(Answered)
      else if h in u.deactivated then Some(HeadDeactivated)
      else None
  }

  function FirstVerdict(signals: seq<Signal>, h: Hash): Option<Fate> {
    if signals == [] then None
    else
      match FirstVerdict(signals[..|signals| - 1], h)
      case Some(fate) => Some(fate)
      case None => Verdict(signals[|signals| - 1], h)
  }

  /** The request is pending, or has met the given fate. */
  ghost predicate Meets(st: State, id: ListenerId, h: Hash, fate: Option<Fate>) {
    match fate
    case None => IsPending(st, id, h)
    case Some(f) => Settled(id, h, f) in st.settled
  }

  lemma {:induction false} FirstVerdictAppend(xs: seq<Signal>, ys: seq<Signal>, h: Hash)
    ensures FirstVerdict(xs + ys, h) == if FirstVerdict(xs, h).Some? then FirstVerdict(xs, h) else FirstVerdict(ys, h)
    decreases |ys|
  {
    if ys == [] {
      assert xs + ys == xs;
    } else {
      assert (xs + ys)[..|xs + ys| - 1] == xs + ys[..|ys| - 1];
      FirstVerdictAppend(xs, ys[..|ys| - 1], h);
    }
  }

  lemma AnnounceVerdict(st: State, u: Update, h: Hash)
    ensures st.signals <= Announce(st, u).signals
    ensures FirstVerdict(Announce(st, u).signals[|st.signals|..], h) == Verdict(ActiveLeaves(u), h)
  {
    var more := Announce(st, u).signals[|st.signals|..];
    if u.activated.None? && u.deactivated == [] {
      assert more == [];
    } else {
      assert more == [ActiveLeaves(u)] && more[..0] == [];
    }
  }

  lemma SettleHeadMeets(st: State, x: Hash, fate: Fate, h: Hash, id: ListenerId)
    requires IsPending(st, id, h) && id !in st.canceled
    ensures Meets(SettleHead(st, x, fate), id, h, if x == h then Some(fate) else None)
  {
  }

  lemma ActivateMeets(sup: Hash -> bool, st: State, x: Hash, parent: Option<Hash>, h: Hash, id: ListenerId)
    requires IsPending(st, id, h) && id !in st.canceled
    ensures Meets(Activate(sup, st, x, parent).0, id, h, if sup(x) && x == h then Some(Answered) else None)
  {
    hide SettleHead, Put;
    SettleHeadMeets(st, x, Answered, h, id);
  }

  lemma DropParentMeets(st: State, parent: Hash, h: Hash, id: ListenerId)
    requires IsPending(st, id, h) && id !in st.canceled
    ensures Meets(DropParent(st, parent), id, h,
                  if parent in st.active && parent == h then Some(HeadDeactivated) else None)
  {
    hide SettleHead;
    if parent in st.active {
      SettleHeadMeets(st.(active := st.active - {parent}), parent, HeadDeactivated, h, id);
    }
  }

  lemma {:induction false} DeactivateAllMeets(st: State, hs: seq<Hash>, h: Hash, id: ListenerId)
    requires IsPending(st, id, h) && id !in st.canceled
    ensures Meets(DeactivateAll(st, hs), id, h, if h in hs then Some(HeadDeactivated) else None)
    ensures DeactivateAll(st, hs).signals == st.signals
  {
    if hs != [] {
      var before, x := hs[..|hs| - 1], hs[|hs| - 1];
      assert hs == before + [x];
      DeactivateAllMeets(st, before, h, id);
      DeactivateAllAsked(st, before);
      var st1 := DeactivateAll(st, before);
      hide SettleHead, DeactivateAll;
      if h in before {
        SettleHeadSettles(st1, x, HeadDeactivated);
      } else {
        SettleHeadMeets(st1, x, HeadDeactivated, h, id);
      }
      SettleHeadSignals(st1, x, HeadDeactivated);
      assert DeactivateAll(st, hs) == Deactivate(st1, x) by {
        LastDeactivated(st, hs);
      }
    }
  }

  lemma LastDeactivated(st: State, hs: seq<Hash>)
    requires hs != []
    ensures DeactivateAll(st, hs) == Deactivate(DeactivateAll(st, hs[..|hs| - 1]), hs[|hs| - 1])
  {
  }

  lemma SettleHeadSettles(st: State, x: Hash, fate: Fate)
    ensures st.settled <= SettleHead(st, x, fate).settled
  {
  }

  lemma SettleHeadSignals(st: State, x: Hash, fate: Fate)
    ensures SettleHead(st, x, fate).signals == st.signals
  {
  }

  lemma ImportMeets(sup: Hash -> bool, st: State, b: BlockInfo, h: Hash, id: ListenerId)
    requires IsPending(st, id, h) && id !in st.canceled
    ensures var st' := ImportBlock(sup, st, b);
      st.signals <= st'.signals && Meets(st', id, h, FirstVerdict(st'.signals[|st.signals|..], h))
  {
    hide Activate, DropParent, CleanUp, Announce, FirstVerdict;
    if b.hash in st.active {
      NothingNew(st.signals, h);
    } else {
      var st0 := st.(active := st.active[b.hash := b.number]);
      ActivateMeets(sup, st0, b.hash, Some(b.parentHash), h, id);
      ActivateEffect(sup, st0, b.hash, Some(b.parentHash));
      var (st1, a) := Activate(sup, st0, b.hash, Some(b.parentHash));
      var st2 := DropParent(st1, b.parentHash);
      DropParentEffect(st1, b.parentHash);
      CleanUpEffect(st2);
      if sup(b.hash) && b.hash == h {
        DropParentSettles(st1, b.parentHash);
        CleanUpSettled(st2, Settled(id, h, Answered));
      } else {
        DropParentMeets(st1, b.parentHash, h, id);
        CleanUpSettled(st2, Settled(id, h, HeadDeactivated));
        CleanUpPending(st2, id, h);
      }
      var u := Update(LeafOf(b.hash, b.number, a), if b.parentHash in st1.active then [b.parentHash] else []);
      AnnounceVerdict(CleanUp(st2), u, h);
      AnnounceMeets(CleanUp(st2), u, id, h, Verdict(ActiveLeaves(u), h));
    }
  }

  lemma NothingNew(signals: seq<Signal>, h: Hash)
    ensures FirstVerdict(signals[|signals|..], h) == None
  {
  }

  lemma DropParentSettles(st: State, parent: Hash)
    ensures st.settled <= DropParent(st, parent).settled
  {
  }

  lemma AnnounceMeets(st: State, u: Update, id: ListenerId, h: Hash, fate: Option<Fate>)
    requires Meets(st, id, h, fate)
    ensures Meets(Announce(st, u), id, h, fate)
  {
  }

  lemma FinalizeMeets(st: State, b: BlockInfo, order: seq<Hash>, h: Hash, id: ListenerId)
    requires IsPending(st, id, h) && id !in st.canceled
    ensures var st' := FinalizeBlock(st, b, order);
      st.signals <= st'.signals && Meets(st', id, h, FirstVerdict(st'.signals[|st.signals|..], h))
  {
    hide DeactivateAll, Announce, FirstVerdict;
    DeactivateAllMeets(st.(active := st.active - Pruned(st, b)), order, h, id);
    var st1 := DeactivateAll(st.(active := st.active - Pruned(st, b)), order);
    var final := [Signal.BlockFinalized(b.hash, b.number)];
    var st2, u := st1.(signals := st1.signals + final), Update(None, order);
    AnnounceVerdict(st2, u, h);
    AnnounceMeets(st2, u, id, h, if h in order then Some(HeadDeactivated) else None);
    var st' := FinalizeBlock(st, b, order);
    assert st' == Announce(st2, u);
    assert st'.signals[|st.signals|..] == final + st'.signals[|st2.signals|..];
    FirstVerdictAppend(final, st'.signals[|st2.signals|..], h);
    FinalityDecidesNothing(b, h);
  }

  lemma FinalityDecidesNothing(b: BlockInfo, h: Hash)
    ensures FirstVerdict([Signal.BlockFinalized(b.hash, b.number)], h) == None
  {
    assert [Signal.BlockFinalized(b.hash, b.number)][..0] == [];
  }

  /** One event, seen by a pending request whose requester is there. */
  lemma StepMeets(sup: Hash -> bool, st: State, e: Event, h: Hash, id: ListenerId)
    requires Enabled(st, e) && IsPending(st, id, h) && id in st.asked && id !in st.canceled
    ensures var st' := Apply(sup, st, e);
      st.signals <= st'.signals && Meets(st', id, h, FirstVerdict(st'.signals[|st.signals|..], h))
  {
    hide ImportBlock, FinalizeBlock, FirstVerdict, Settle;
    NothingNew(st.signals, h);
    match e {
      case Import(b) => ImportMeets(sup, st, b, h, id);
      case Finalize(b, order) => FinalizeMeets(st, b, order, h, id);
      case Ask(h', id') => assert Apply(sup, st, e).signals == st.signals;
      case GiveUp(_) => assert Apply(sup, st, e).signals == st.signals;
    }
  }

  lemma StepSignals(sup: Hash -> bool, st: State, e: Event)
    ensures st.signals <= Apply(sup, st, e).signals
  {
    hide Activate, DropParent, CleanUp, DeactivateAll, Settle;
    match e {
      case Import(b) =>
        var st0 := st.(active := st.active[b.hash := b.number]);
        ActivateEffect(sup, st0, b.hash, Some(b.parentHash));
        var st1 := Activate(sup, st0, b.hash, Some(b.parentHash)).0;
        DropParentEffect(st1, b.parentHash);
        CleanUpEffect(DropParent(st1, b.parentHash));
      case Finalize(b, order) => DeactivateAllEffect(st.(active := st.active - Pruned(st, b)), order);
      case Ask(_, _) =>
      case GiveUp(_) =>
    }
  }

  /**
   The fate of a request, exactly: answered if the head was known; otherwise as the first
   announcement about the head since then decides, and pending as long as there is none.
   */
  lemma {:induction false} FateExactly(sup: Hash -> bool, leaves: seq<(Hash, nat)>, evs: seq<Event>,
                                       h: Hash, id: ListenerId, more: seq<Event>)
    requires Possible(sup, leaves, evs + [Ask(h, id)] + more) && GiveUp(id) !in evs + more
    ensures var st, st' := Run(sup, leaves, evs), Run(sup, leaves, evs + [Ask(h, id)] + more);
      && st.signals <= st'.signals
      && Meets(st', id, h, if h in st.known then Some(Answered) else FirstVerdict(st'.signals[|st.signals|..], h))
    decreases |more|
  {
    hide Apply, FirstVerdict, Meets, Enabled;
    var all := evs + [Ask(h, id)] + more;
    var st, st' := Run(sup, leaves, evs), Run(sup, leaves, all);
    var before, e := all[..|all| - 1], all[|all| - 1];
    PossiblePrefix(sup, leaves, all);
    AskedIsHistory(sup, leaves, before);
    if more == [] {
      assert before == evs && e == Ask(h, id);
      AskMeets(st, h, id);
      assert st' == Apply(sup, st, e);
      assert Apply(sup, st, e) == Wait(st, h, id) by {
        AskApplies(sup, st, h, id);
      }
    } else {
      var less := more[..|more| - 1];
      assert before == evs + [Ask(h, id)] + less;
      assert forall x | x in evs + less :: x in evs + more;
      FateExactly(sup, leaves, evs, h, id, less);
      var st1 := Run(sup, leaves, before);
      assert GiveUp(id) !in before;
      assert Ask(h, id) in before;
      OneMoreMeets(sup, st, st1, e, h, id);
    }
  }

  lemma AskApplies(sup: Hash -> bool, st: State, h: Hash, id: ListenerId)
    ensures Apply(sup, st, Ask(h, id)) == Wait(st, h, id)
  {
  }

  lemma AskMeets(st: State, h: Hash, id: ListenerId)
    requires id !in st.canceled
    ensures var st' := Wait(st, h, id);
      && st.signals == st'.signals
      && Meets(st', id, h, if h in st.known then Some(Answered) else FirstVerdict(st'.signals[|st.signals|..], h))
  {
    NothingNew(st.signals, h);
    if h in st.known {
      assert id in [id];
    }
  }

  lemma OneMoreMeets(sup: Hash -> bool, st: State, st1: State, e: Event, h: Hash, id: ListenerId)
    requires st.signals <= st1.signals && Enabled(st1, e) && id in st1.asked && id !in st1.canceled
    requires Meets(st1, id, h, if h in st.known then Some(Answered) else FirstVerdict(st1.signals[|st.signals|..], h))
    ensures var st' := Apply(sup, st1, e);
      && st.signals <= st'.signals
      && Meets(st', id, h, if h in st.known then Some(Answered) else FirstVerdict(st'.signals[|st.signals|..], h))
  {
    hide Apply, FirstVerdict, Enabled, IsPending;
    var st' := Apply(sup, st1, e);
    StepSettles(sup, st1, e);
    StepSignals(sup, st1, e);
    var k, k1 := |st.signals|, |st1.signals|;
    assert st'.signals[k..] == st1.signals[k..] + st'.signals[k1..];
    FirstVerdictAppend(st1.signals[k..], st'.signals[k1..], h);
    if h !in st.known && FirstVerdict(st1.signals[k..], h).None? {
      StepMeets(sup, st1, e, h, id);
    }
  }

  // ---- Requesters that give up ----

  /** An event that makes the overseer look at the listeners of `h`: a new block, or the pruning of `h`. */
  predicate Sweeps(st: State, e: Event, h: Hash) {
    match e
    case Import(b) => b.hash !in st.active
    case Finalize(_, order) => h in order
    case Ask(_, _) => false
    case GiveUp(_) => false
  }

  ghost predicate Swept(sup: Hash -> bool, leaves: seq<(Hash, nat)>, evs: seq<Event>, more: seq<Event>, h: Hash) {
    exists i :: 0 <= i < |more| && Sweeps(Run(sup, leaves, evs + more[..i]), more[i], h)
  }

  lemma SweptLast(sup: Hash -> bool, leaves: seq<(Hash, nat)>, evs: seq<Event>, more: seq<Event>, e: Event, h: Hash)
    ensures Swept(sup, leaves, evs, more + [e], h) <==>
            Swept(sup, leaves, evs, more, h) || Sweeps(Run(sup, leaves, evs + more), e, h)
  {
    hide Run, Sweeps;
    var all := more + [e];
    assert all[..|more|] == more && all[|more|] == e;
    assert forall i | 0 <= i < |more| :: all[..i] == more[..i] && all[i] == more[i];
    if Swept(sup, leaves, evs, more, h) {
      var i :| 0 <= i < |more| && Sweeps(Run(sup, leaves, evs + more[..i]), more[i], h);
      assert Sweeps(Run(sup, leaves, evs + all[..i]), all[i], h);
    }
    if Sweeps(Run(sup, leaves, evs + more), e, h) {
      assert Sweeps(Run(sup, leaves, evs + all[..|more|]), all[|more|], h);
    }
  }

  lemma SettleHeadGone(st: State, x: Hash, fate: Fate, h: Hash, id: ListenerId)
    requires IsPending(st, id, h) && id in st.canceled
    ensures Meets(SettleHead(st, x, fate), id, h, if x == h then Some(RequesterGone) else None)
  {
  }

  lemma ActivateGone(sup: Hash -> bool, st: State, x: Hash, parent: Option<Hash>, h: Hash, id: ListenerId)
    requires IsPending(st, id, h) && id in st.canceled
    ensures Meets(Activate(sup, st, x, parent).0, id, h, if sup(x) && x == h then Some(RequesterGone) else None)
  {
    hide SettleHead, Put;
    SettleHeadGone(st, x, Answered, h, id);
  }

  lemma DropParentGone(st: State, parent: Hash, h: Hash, id: ListenerId)
    requires IsPending(st, id, h) && id in st.canceled
    ensures Meets(DropParent(st, parent), id, h,
                  if parent in st.active && parent == h then Some(RequesterGone) else None)
  {
    hide SettleHead;
    if parent in st.active {
      SettleHeadGone(st.(active := st.active - {parent}), parent, HeadDeactivated, h, id);
    }
  }

  lemma ImportGone(sup: Hash -> bool, st: State, b: BlockInfo, h: Hash, id: ListenerId)
    requires IsPending(st, id, h) && id in st.canceled && b.hash !in st.active
    ensures Settled(id, h, RequesterGone) in ImportBlock(sup, st, b).settled
  {
    hide Activate, DropParent, CleanUp;
    var gone := Settled(id, h, RequesterGone);
    var st0 := st.(active := st.active[b.hash := b.number]);
    ActivateGone(sup, st0, b.hash, Some(b.parentHash), h, id);
    ActivateEffect(sup, st0, b.hash, Some(b.parentHash));
    var st1 := Activate(sup, st0, b.hash, Some(b.parentHash)).0;
    var st2 := DropParent(st1, b.parentHash);
    DropParentEffect(st1, b.parentHash);
    if gone in st1.settled {
      DropParentSettles(st1, b.parentHash);
    } else {
      DropParentGone(st1, b.parentHash, h, id);
    }
    CleanUpSettled(st2, gone);
  }

  lemma {:induction false} DeactivateAllGone(st: State, hs: seq<Hash>, h: Hash, id: ListenerId)
    requires IsPending(st, id, h) && id in st.canceled
    ensures Meets(DeactivateAll(st, hs), id, h, if h in hs then Some(RequesterGone) else None)
  {
    if hs != [] {
      var before, x := hs[..|hs| - 1], hs[|hs| - 1];
      assert hs == before + [x];
      DeactivateAllGone(st, before, h, id);
      DeactivateAllAsked(st, before);
      LastDeactivated(st, hs);
      var st1 := DeactivateAll(st, before);
      hide SettleHead, DeactivateAll;
      if h in before {
        SettleHeadSettles(st1, x, HeadDeactivated);
      } else {
        SettleHeadGone(st1, x, HeadDeactivated, h, id);
      }
    }
  }

  lemma FinalizeGone(st: State, b: BlockInfo, order: seq<Hash>, h: Hash, id: ListenerId)
    requires IsPending(st, id, h) && id in st.canceled
    ensures Meets(FinalizeBlock(st, b, order), id, h, if h in order then Some(RequesterGone) else None)
  {
    hide DeactivateAll;
    DeactivateAllGone(st.(active := st.active - Pruned(st, b)), order, h, id);
  }

  /** One event, seen by a pending request whose requester is gone. */
  lemma StepGone(sup: Hash -> bool, st: State, e: Event, h: Hash, id: ListenerId)
    requires IsPending(st, id, h) && id in st.canceled
    ensures Meets(Apply(sup, st, e), id, h, if Sweeps(st, e, h) then Some(RequesterGone) else None)
  {
    match e {
      case Import(b) =>
        if b.hash !in st.active {
          hide ImportBlock;
          ImportGone(sup, st, b, h, id);
        }
      case Finalize(b, order) =>
        hide FinalizeBlock;
        FinalizeGone(st, b, order, h, id);
      case Ask(h', id') =>
        hide Wait;
        WaitPending(st, h', id', id, h);
      case GiveUp(_) =>
    }
  }

  lemma CanceledStays(sup: Hash -> bool, st: State, e: Event)
    ensures st.canceled <= Apply(sup, st, e).canceled
  {
    hide Apply;
    AskedFrame(sup, st, e);
  }

  /** A pending request without requester stays pending until the first sweep, and is then dropped. */
  lemma {:induction false} GoneExactly(sup: Hash -> bool, leaves: seq<(Hash, nat)>, evs: seq<Event>,
                                       more: seq<Event>, h: Hash, id: ListenerId)
    requires IsPending(Run(sup, leaves, evs), id, h) && id in Run(sup, leaves, evs).canceled
    ensures Meets(Run(sup, leaves, evs + more), id, h,
                  if Swept(sup, leaves, evs, more, h) then Some(RequesterGone) else None)
    ensures id in Run(sup, leaves, evs + more).canceled
    decreases |more|
  {
    hide Apply, Swept, Sweeps, IsPending;
    if more == [] {
      assert evs + more == evs;
      NeverSwept(sup, leaves, evs, h);
    } else {
      var less, e := more[..|more| - 1], more[|more| - 1];
      assert more == less + [e] && (evs + more)[..|evs + more| - 1] == evs + less;
      GoneExactly(sup, leaves, evs, less, h, id);
      SweptLast(sup, leaves, evs, less, e, h);
      var st := Run(sup, leaves, evs + less);
      CanceledStays(sup, st, e);
      if Swept(sup, leaves, evs, less, h) {
        StepSettles(sup, st, e);
      } else {
        StepGone(sup, st, e, h, id);
      }
    }
  }

  lemma NeverSwept(sup: Hash -> bool, leaves: seq<(Hash, nat)>, evs: seq<Event>, h: Hash)
    ensures !Swept(sup, leaves, evs, [], h)
  {
  }

  /**
   The fate of a request whose requester gives up after asking: the one decided before
   that, if any; otherwise it is dropped at the first sweep after, and pending until then.
   */
  lemma {:induction false} FateAfterGivingUp(sup: Hash -> bool, leaves: seq<(Hash, nat)>, evs: seq<Event>,
                                             h: Hash, id: ListenerId, more: seq<Event>, rest: seq<Event>)
    requires Possible(sup, leaves, evs + [Ask(h, id)] + more) && GiveUp(id) !in evs + more
    ensures var asked := evs + [Ask(h, id)] + more;
      var st, st1 := Run(sup, leaves, evs), Run(sup, leaves, asked);
      && st.signals <= st1.signals
      && var fate := if h in st.known then Some(Answered) else FirstVerdict(st1.signals[|st.signals|..], h);
         Meets(Run(sup, leaves, asked + [GiveUp(id)] + rest), id, h,
               if fate.Some? then fate
               else if Swept(sup, leaves, asked + [GiveUp(id)], rest, h) then Some(RequesterGone)
               else None)
  {
    hide Swept, FirstVerdict, Run, IsPending, Possible;
    var asked := evs + [Ask(h, id)] + more;
    var st, st1 := Run(sup, leaves, evs), Run(sup, leaves, asked);
    FateExactly(sup, leaves, evs, h, id, more);
    var fate := if h in st.known then Some(Answered) else FirstVerdict(st1.signals[|st.signals|..], h);
    if fate.Some? {
      assert asked + [GiveUp(id)] + rest == asked + ([GiveUp(id)] + rest);
      FateFinal(sup, leaves, asked, [GiveUp(id)] + rest);
    } else {
      GivenUp(sup, leaves, asked, h, id);
      GoneExactly(sup, leaves, asked + [GiveUp(id)], rest, h, id);
    }
  }

  lemma GivenUp(sup: Hash -> bool, leaves: seq<(Hash, nat)>, evs: seq<Event>, h: Hash, id: ListenerId)
    requires IsPending(Run(sup, leaves, evs), id, h)
    ensures IsPending(Run(sup, leaves, evs + [GiveUp(id)]), id, h)
    ensures id in Run(sup, leaves, evs + [GiveUp(id)]).canceled
  {
    assert (evs + [GiveUp(id)])[..|evs|] == evs;
  }

  /** The fate of a request whose requester was gone before it arrived: never answered. */
  lemma {:induction false} FateIfGoneBefore(sup: Hash -> bool, leaves: seq<(Hash, nat)>, evs: seq<Event>,
                                            h: Hash, id: ListenerId, more: seq<Event>)
    requires Possible(sup, leaves, evs) && GiveUp(id) in evs
    ensures Meets(Run(sup, leaves, evs + [Ask(h, id)] + more), id, h,
                  if h in Run(sup, leaves, evs).known || Swept(sup, leaves, evs + [Ask(h, id)], more, h)
                  then Some(RequesterGone) else None)
  {
    hide Swept, Run, IsPending, Possible, Wait;
    var st := Run(sup, leaves, evs);
    AskedIsHistory(sup, leaves, evs);
    AskRuns(sup, leaves, evs, h, id);
    WaitEffect(st, h, id);
    if h in st.known {
      FateFinal(sup, leaves, evs + [Ask(h, id)], more);
    } else {
      WaitPending(st, h, id, id, h);
      GoneExactly(sup, leaves, evs + [Ask(h, id)], more, h, id);
    }
  }

  lemma AskRuns(sup: Hash -> bool, leaves: seq<(Hash, nat)>, evs: seq<Event>, h: Hash, id: ListenerId)
    ensures Run(sup, leaves, evs + [Ask(h, id)]) == Wait(Run(sup, leaves, evs), h, id)
  {
    hide Wait;
    assert (evs + [Ask(h, id)])[..|evs|] == evs;
  }
}

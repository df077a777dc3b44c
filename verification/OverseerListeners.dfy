/**
 Every request to wait for a head has exactly one fate: it is still pending, or it was
 answered once, or it was dropped once; and it never waits for a head already known.
 */
module OverseerListeners {
  import opened Options
  import opened Overseer
  import opened OverseerDeltas
  import opened OverseerFreshness

  ghost predicate IsPending(st: State, id: ListenerId, h: Hash) {
    h in st.listeners && id in st.listeners[h]
  }

  ghost predicate IsSettled(st: State, id: ListenerId) {
    exists x :: x in st.settled && x.listener == id
  }

  ghost predicate NoRepeats(ids: seq<ListenerId>) {
    forall i, j | 0 <= i < j < |ids| :: ids[i] != ids[j]
  }

  /** Answered only once the head was activated; dropped only for a reason. */
  ghost predicate Justified(x: Settled, activated: set<Hash>, deactivated: set<Hash>, canceled: set<ListenerId>) {
    match x.fate
    case Answered => x.hash in activated
    case HeadDeactivated => x.hash in deactivated
    case RequesterGone => x.listener in canceled
  }

  ghost predicate PendingSound(st: State) {
    && (forall id, h | IsPending(st, id, h) ::
          id in st.asked && st.asked[id] == h && h !in st.known && !IsSettled(st, id))
    && (forall h | h in st.listeners :: NoRepeats(st.listeners[h]))
  }

  ghost predicate SettledSound(st: State, activated: set<Hash>, deactivated: set<Hash>) {
    && (forall x | x in st.settled ::
          && x.listener in st.asked
          && st.asked[x.listener] == x.hash
          && Justified(x, activated, deactivated, st.canceled))
    && (forall x, y | x in st.settled && y in st.settled && x.listener == y.listener :: x == y)
  }

  ghost predicate Accounted(st: State) {
    forall id | id in st.asked :: IsPending(st, id, st.asked[id]) || IsSettled(st, id)
  }

  ghost predicate Fates(st: State, activated: set<Hash>, deactivated: set<Hash>) {
    && PendingSound(st)
    && SettledSound(st, activated, deactivated)
    && Accounted(st)
    && (forall h | h in st.known :: h in activated)
  }

  // ---- Settling the listeners of a head ----

  lemma SettleHeadPending(st: State, h: Hash, fate: Fate)
    requires PendingSound(st)
    ensures PendingSound(SettleHead(st, h, fate))
  {
    var st' := SettleHead(st, h, fate);
    forall id, h' | IsPending(st', id, h')
      ensures id in st'.asked && st'.asked[id] == h' && h' !in st'.known && !IsSettled(st', id)
    {
      assert IsPending(st, id, h') && st.asked[id] == h';
      if h in st.listeners {
        assert forall x | x in st'.settled && x !in st.settled :: IsPending(st, x.listener, h);
      }
    }
  }

  lemma SettleHeadSettled(st: State, h: Hash, fate: Fate, activated: set<Hash>, deactivated: set<Hash>)
    requires PendingSound(st) && SettledSound(st, activated, deactivated)
    requires (fate == Answered && h in activated) || (fate == HeadDeactivated && h in deactivated)
    ensures SettledSound(SettleHead(st, h, fate), activated, deactivated)
  {
    hide Live;
    if h in st.listeners {
      var st' := SettleHead(st, h, fate);
      forall x | x in st'.settled && x !in st.settled
        ensures IsPending(st, x.listener, h) && x.hash == h && !IsSettled(st, x.listener)
        ensures x.fate == if x.listener in st.canceled then RequesterGone else fate
      {
      }
    }
  }

  lemma SettleHeadAccounted(st: State, h: Hash, fate: Fate)
    requires Accounted(st)
    ensures Accounted(SettleHead(st, h, fate))
  {
    hide Live;
    var st' := SettleHead(st, h, fate);
    forall id | id in st'.asked ensures IsPending(st', id, st'.asked[id]) || IsSettled(st', id) {
      if IsPending(st, id, st.asked[id]) && st.asked[id] == h {
        assert Settled(id, h, if id in st.canceled then RequesterGone else fate) in st'.settled;
      } else if IsSettled(st, id) {
        var x :| x in st.settled && x.listener == id;
        assert x in st'.settled;
      }
    }
  }

  lemma SettleHeadFates(st: State, h: Hash, fate: Fate, activated: set<Hash>, deactivated: set<Hash>)
    requires Fates(st, activated, deactivated)
    requires (fate == Answered && h in activated) || (fate == HeadDeactivated && h in deactivated)
    ensures Fates(SettleHead(st, h, fate), activated, deactivated)
    ensures h !in SettleHead(st, h, fate).listeners
  {
    hide PendingSound, SettledSound, Accounted, Live, Settle;
    SettleHeadPending(st, h, fate);
    SettleHeadSettled(st, h, fate, activated, deactivated);
    SettleHeadAccounted(st, h, fate);
  }

  /** Only the cache, the listeners and their history matter, and more history is fine. */
  lemma FatesFrame(st: State, st': State, act: set<Hash>, act': set<Hash>, deact: set<Hash>, deact': set<Hash>)
    requires Fates(st, act, deact) && act <= act' && deact <= deact'
    requires st'.known == st.known && st'.listeners == st.listeners && st'.settled == st.settled
    requires st'.asked == st.asked && st.canceled <= st'.canceled
    ensures Fates(st', act', deact')
  {
    forall id, h | IsPending(st', id, h)
      ensures id in st'.asked && st'.asked[id] == h && h !in st'.known && !IsSettled(st', id)
    {
      assert IsPending(st, id, h);
    }
    forall id | id in st'.asked ensures IsPending(st', id, st'.asked[id]) || IsSettled(st', id) {
      assert IsPending(st, id, st.asked[id]) || IsSettled(st, id);
    }
  }

  lemma {:induction false} LiveElements(ids: seq<ListenerId>, canceled: set<ListenerId>)
    ensures forall id :: id in Live(ids, canceled) <==> id in ids && id !in canceled
    ensures NoRepeats(ids) ==> NoRepeats(Live(ids, canceled))
  {
    if ids != [] {
      LiveElements(ids[1..], canceled);
      if NoRepeats(ids) {
        assert NoRepeats(ids[1..]) && ids[0] !in ids[1..];
        assert forall i | 0 <= i < |Live(ids[1..], canceled)| :: Live(ids[1..], canceled)[i] in ids[1..];
      }
    }
  }

  lemma CleanUpPending(st: State, id: ListenerId, h: Hash)
    ensures IsPending(CleanUp(st), id, h) <==> IsPending(st, id, h) && id !in st.canceled
  {
    if h in st.listeners {
      LiveElements(st.listeners[h], st.canceled);
    }
  }

  lemma CleanUpSettled(st: State, x: Settled)
    ensures x in CleanUp(st).settled <==>
            || x in st.settled
            || (x.fate == RequesterGone && x.listener in st.canceled && IsPending(st, x.listener, x.hash))
  {
  }

  lemma CleanUpFates(st: State, act: set<Hash>, deact: set<Hash>)
    requires Fates(st, act, deact)
    ensures Fates(CleanUp(st), act, deact)
  {
    var st' := CleanUp(st);
    assert st'.asked == st.asked && st'.known == st.known && st'.canceled == st.canceled;
    forall x ensures x in st'.settled <==>
      x in st.settled || (x.fate == RequesterGone && x.listener in st.canceled && IsPending(st, x.listener, x.hash))
    {
      CleanUpSettled(st, x);
    }
    forall id, h ensures IsPending(st', id, h) <==> IsPending(st, id, h) && id !in st.canceled {
      CleanUpPending(st, id, h);
    }
    forall h | h in st'.listeners ensures NoRepeats(st'.listeners[h]) {
      LiveElements(st.listeners[h], st.canceled);
    }
    hide CleanUp, Live;
    forall id | id in st'.asked ensures IsPending(st', id, st'.asked[id]) || IsSettled(st', id) {
      if IsPending(st, id, st.asked[id]) && id in st.canceled {
        var x := Settled(id, st.asked[id], RequesterGone);
        assert x in st'.settled;
      } else if IsSettled(st, id) {
        var x :| x in st.settled && x.listener == id;
        assert x in st'.settled;
      }
    }
  }

  lemma PutElements(known: seq<Hash>, h: Hash)
    ensures h in Put(known, h)
    ensures forall x | x in Put(known, h) :: x in known || x == h
  {
    WithoutElements(known, h);
    assert ([h] + Without(known, h))[0] == h;
  }

  lemma ActivateFates(sup: Hash -> bool, st: State, h: Hash, parent: Option<Hash>, act: set<Hash>, deact: set<Hash>)
    requires Fates(st, act, deact)
    ensures Fates(Activate(sup, st, h, parent).0, if sup(h) then act + {h} else act, deact)
  {
    if sup(h) {
      FatesFrame(st, st, act, act + {h}, deact, deact);
      SettleHeadFates(st, h, Answered, act + {h}, deact);
      PutElements(st.known, h);
      KnowMore(SettleHead(st, h, Answered), Activate(sup, st, h, parent).0, h, act + {h}, deact);
    }
  }

  lemma KnowMore(st: State, st': State, h: Hash, act: set<Hash>, deact: set<Hash>)
    requires Fates(st, act, deact) && h in act && h !in st.listeners
    requires forall x | x in st'.known :: x in st.known || x == h
    requires st' == st.(known := st'.known, spans := st'.spans)
    ensures Fates(st', act, deact)
  {
    FatesFrame(st, st.(spans := st'.spans), act, act, deact, deact);
    forall id, h' | IsPending(st', id, h')
      ensures id in st'.asked && st'.asked[id] == h' && h' !in st'.known && !IsSettled(st', id)
    {
      assert IsPending(st, id, h');
    }
    forall id | id in st'.asked ensures IsPending(st', id, st'.asked[id]) || IsSettled(st', id) {
      assert IsPending(st, id, st.asked[id]) || IsSettled(st, id);
    }
  }

  lemma DeactivateFates(st: State, h: Hash, act: set<Hash>, deact: set<Hash>)
    requires Fates(st, act, deact) && h in deact
    ensures Fates(Deactivate(st, h), act, deact)
  {
    SettleHeadFates(st, h, HeadDeactivated, act, deact);
    FatesFrame(SettleHead(st, h, HeadDeactivated), Deactivate(st, h), act, act, deact, deact);
  }

  lemma {:induction false} DeactivateAllFates(st: State, hs: seq<Hash>, act: set<Hash>, deact: set<Hash>)
    requires Fates(st, act, deact) && Elements(hs) <= deact
    ensures Fates(DeactivateAll(st, hs), act, deact)
  {
    hide Fates, Deactivate;
    if hs != [] {
      assert Elements(hs[..|hs| - 1]) <= Elements(hs) && hs[|hs| - 1] in Elements(hs);
      DeactivateAllFates(st, hs[..|hs| - 1], act, deact);
      DeactivateFates(DeactivateAll(st, hs[..|hs| - 1]), hs[|hs| - 1], act, deact);
    }
  }

  // ---- A new request ----

  lemma LiveOne(id: ListenerId, canceled: set<ListenerId>)
    ensures Live([id], canceled) == if id in canceled then [] else [id]
  {
    assert [id][1..] == [];
  }

  lemma WaitEffect(st: State, h: Hash, id: ListenerId)
    ensures var st' := Wait(st, h, id);
      var x := Settled(id, h, if id in st.canceled then RequesterGone else Answered);
      && st'.asked == st.asked[id := h]
      && st'.known == st.known && st'.canceled == st.canceled
      && st'.answers == st.answers + (if h in st.known then Live([id], st.canceled) else [])
      && st'.settled == st.settled + (if h in st.known then {x} else {})
  {
    hide Live;
    assert id in [id];
  }

  lemma WaitPending(st: State, h: Hash, id: ListenerId, id': ListenerId, h': Hash)
    ensures IsPending(Wait(st, h, id), id', h') <==>
            IsPending(st, id', h') || (h !in st.known && id' == id && h' == h)
  {
    hide Live, Settle;
  }

  lemma WaitNoRepeats(st: State, h: Hash, id: ListenerId)
    requires forall h' | h' in st.listeners :: NoRepeats(st.listeners[h'])
    requires forall h' :: !IsPending(st, id, h')
    ensures forall h' | h' in Wait(st, h, id).listeners :: NoRepeats(Wait(st, h, id).listeners[h'])
  {
    hide Live, Settle;
    assert h in st.listeners ==> id !in st.listeners[h] by {
      assert !IsPending(st, id, h);
    }
  }

  lemma AskedAccounted(st: State, st': State, h: Hash, id: ListenerId)
    requires Accounted(st) && st'.asked == st.asked[id := h] && st.settled <= st'.settled
    requires forall id', h' | IsPending(st, id', h') :: IsPending(st', id', h')
    requires IsPending(st', id, h) || IsSettled(st', id)
    ensures Accounted(st')
  {
    hide IsPending;
    forall id' | id' in st'.asked ensures IsPending(st', id', st'.asked[id']) || IsSettled(st', id') {
      if id' != id && IsSettled(st, id') {
        var x :| x in st.settled && x.listener == id';
        assert x in st'.settled;
      }
    }
  }

  lemma AskedPending(st: State, st': State, h: Hash, id: ListenerId)
    requires PendingSound(st) && st'.asked == st.asked[id := h] && id !in st.asked && st'.known == st.known
    requires forall x | x in st'.settled :: x in st.settled || x.listener == id
    requires forall id', h' | IsPending(st', id', h') ::
      IsPending(st, id', h') || (id' == id && h' == h && h !in st.known && !IsSettled(st', id))
    requires forall h' | h' in st'.listeners :: NoRepeats(st'.listeners[h'])
    ensures PendingSound(st')
  {
    hide IsPending, NoRepeats;
    forall id', h' | IsPending(st', id', h')
      ensures id' in st'.asked && st'.asked[id'] == h' && h' !in st'.known && !IsSettled(st', id')
    {
      if id' != id {
        assert IsPending(st, id', h') && !IsSettled(st, id');
      }
    }
  }

  lemma AskedSettled(st: State, st': State, h: Hash, id: ListenerId, act: set<Hash>, deact: set<Hash>)
    requires SettledSound(st, act, deact) && st'.asked == st.asked[id := h] && id !in st.asked
    requires st'.canceled == st.canceled && (h in st.known ==> h in act)
    requires var x := Settled(id, h, if id in st.canceled then RequesterGone else Answered);
      st'.settled == st.settled + if h in st.known then {x} else {}
    ensures SettledSound(st', act, deact)
  {
    assert forall x | x in st.settled :: x.listener != id;
  }

  lemma WaitFates(st: State, h: Hash, id: ListenerId, act: set<Hash>, deact: set<Hash>)
    requires Fates(st, act, deact) && id !in st.asked
    ensures Fates(Wait(st, h, id), act, deact)
  {
    var st' := Wait(st, h, id);
    WaitEffect(st, h, id);
    forall id', h' ensures IsPending(st', id', h') <==>
      IsPending(st, id', h') || (h !in st.known && id' == id && h' == h)
    {
      WaitPending(st, h, id, id', h');
    }
    assert forall h' :: !IsPending(st, id, h');
    WaitNoRepeats(st, h, id);
    assert forall x | x in st.settled :: x.listener != id;
    hide Wait, IsPending, NoRepeats, Live;
    if h in st.known {
      var x := Settled(id, h, if id in st.canceled then RequesterGone else Answered);
      assert x in st'.settled;
    }
    AskedPending(st, st', h, id);
    AskedAccounted(st, st', h, id);
    AskedSettled(st, st', h, id, act, deact);
    hide SettledSound;
  }

  // ---- Runs ----

  /** Every head announced as deactivated so far. */
  function Deactivations(signals: seq<Signal>): set<Hash> {
    if signals == [] then {}
    else
      Deactivations(signals[..|signals| - 1]) +
      match signals[|signals| - 1]
      case ActiveLeaves(u) => Elements(u.deactivated)
      case BlockFinalized(_, _) => {}
  }

  ghost predicate FatesNow(st: State) {
    Fates(st, Elements(Activations(st.signals)), Deactivations(st.signals))
  }

  lemma AnnounceFates(st: State, u: Update, act: set<Hash>, deact: set<Hash>)
    requires Fates(st, act + (if u.activated.Some? then {u.activated.value.hash} else {}),
                   deact + Elements(u.deactivated))
    requires act == Elements(Activations(st.signals)) && deact == Deactivations(st.signals)
    ensures FatesNow(Announce(st, u))
  {
    hide Fates;
    var st' := Announce(st, u);
    var act' := act + if u.activated.Some? then {u.activated.value.hash} else {};
    var deact' := deact + Elements(u.deactivated);
    ActivationsOneMore(st.signals, ActiveLeaves(u));
    assert (st.signals + [ActiveLeaves(u)])[..|st.signals|] == st.signals;
    FatesFrame(st, st', act', act', deact', deact');
    assert act' == Elements(Activations(st'.signals));
    assert deact' == Deactivations(st'.signals);
  }

  lemma StartLeafFates(sup: Hash -> bool, st: State, leaf: (Hash, nat))
    requires FatesNow(st)
    ensures FatesNow(StartLeaf(sup, st, leaf))
  {
    hide Fates, Activate, Activations, Deactivations;
    var (h, number) := leaf;
    var st0 := st.(active := st.active[h := number]);
    var act, deact := Elements(Activations(st.signals)), Deactivations(st.signals);
    FatesFrame(st, st0, act, act, deact, deact);
    ActivateFates(sup, st0, h, None, act, deact);
    ActivateEffect(sup, st0, h, None);
    var (st1, a) := Activate(sup, st0, h, None);
    assert deact + Elements([]) == deact && act + {} == act;
    AnnounceFates(st1, Update(LeafOf(h, number, a), []), act, deact);
  }

  lemma DropParentFates(st: State, parent: Hash, act: set<Hash>, deact: set<Hash>)
    requires Fates(st, act, deact)
    ensures Fates(DropParent(st, parent), act, deact + if parent in st.active then {parent} else {})
  {
    hide Fates, Deactivate;
    if parent in st.active {
      var st0 := st.(active := st.active - {parent});
      FatesFrame(st, st0, act, act, deact, deact + {parent});
      DeactivateFates(st0, parent, act, deact + {parent});
    } else {
      assert deact + {} == deact;
    }
  }

  lemma ImportFates(sup: Hash -> bool, st: State, b: BlockInfo)
    requires FatesNow(st)
    ensures FatesNow(ImportBlock(sup, st, b))
  {
    hide Fates, Activate, DropParent, CleanUp, Activations, Deactivations;
    if b.hash !in st.active {
      var act, deact := Elements(Activations(st.signals)), Deactivations(st.signals);
      var st0 := st.(active := st.active[b.hash := b.number]);
      FatesFrame(st, st0, act, act, deact, deact);
      ActivateFates(sup, st0, b.hash, Some(b.parentHash), act, deact);
      ActivateEffect(sup, st0, b.hash, Some(b.parentHash));
      var (st1, a) := Activate(sup, st0, b.hash, Some(b.parentHash));
      var act' := if sup(b.hash) then act + {b.hash} else act;
      DropParentFates(st1, b.parentHash, act', deact);
      DropParentEffect(st1, b.parentHash);
      var st2 := DropParent(st1, b.parentHash);
      var gone := if b.parentHash in st1.active then [b.parentHash] else [];
      assert Elements(gone) == if b.parentHash in st1.active then {b.parentHash} else {};
      CleanUpFates(st2, act', deact + Elements(gone));
      CleanUpEffect(st2);
      var u := Update(LeafOf(b.hash, b.number, a), gone);
      assert act' == act + if u.activated.Some? then {u.activated.value.hash} else {};
      AnnounceFates(CleanUp(st2), u, act, deact);
    }
  }

  lemma FinalizeFates(st: State, b: BlockInfo, order: seq<Hash>)
    requires FatesNow(st)
    ensures FatesNow(FinalizeBlock(st, b, order))
  {
    hide Fates, DeactivateAll;
    var act, deact := Elements(Activations(st.signals)), Deactivations(st.signals);
    var st0 := st.(active := st.active - Pruned(st, b));
    var deact' := deact + Elements(order);
    FatesFrame(st, st0, act, act, deact, deact');
    DeactivateAllFates(st0, order, act, deact');
    DeactivateAllEffect(st0, order);
    var st1 := DeactivateAll(st0, order);
    var s := BlockFinalized(b.hash, b.number);
    var st2 := st1.(signals := st1.signals + [s]);
    assert st2.signals[..|st1.signals|] == st1.signals;
    ActivationsOneMore(st1.signals, s);
    assert Activations(st1.signals) + [] == Activations(st1.signals) && act + {} == act;
    FatesFrame(st1, st2, act, act, deact', deact');
    AnnounceFates(st2, Update(None, order), act, deact);
  }

  lemma {:induction false} StartFates(sup: Hash -> bool, leaves: seq<(Hash, nat)>)
    ensures FatesNow(Start(sup, leaves))
  {
    if leaves == [] {
      assert forall id, h :: !IsPending(INITIAL, id, h);
    } else {
      StartFates(sup, leaves[..|leaves| - 1]);
      StartLeafFates(sup, Start(sup, leaves[..|leaves| - 1]), leaves[|leaves| - 1]);
    }
  }

  lemma StepFates(sup: Hash -> bool, st: State, e: Event)
    requires FatesNow(st) && Enabled(st, e)
    ensures FatesNow(Apply(sup, st, e))
  {
    hide Fates;
    var act, deact := Elements(Activations(st.signals)), Deactivations(st.signals);
    match e {
      case Import(b) => ImportFates(sup, st, b);
      case Finalize(b, order) => FinalizeFates(st, b, order);
      case Ask(h, id) => WaitFates(st, h, id, act, deact);
      case GiveUp(id) => FatesFrame(st, Cancel(st, id), act, act, deact, deact);
    }
  }

  lemma {:induction false} RunFates(sup: Hash -> bool, leaves: seq<(Hash, nat)>, evs: seq<Event>)
    requires Possible(sup, leaves, evs)
    ensures FatesNow(Run(sup, leaves, evs))
  {
    hide Apply, FatesNow, Enabled;
    if evs == [] {
      StartFates(sup, leaves);
    } else {
      PossiblePrefix(sup, leaves, evs);
      RunFates(sup, leaves, evs[..|evs| - 1]);
      StepFates(sup, Run(sup, leaves, evs[..|evs| - 1]), evs[|evs| - 1]);
    }
  }

  lemma ImportAsked(sup: Hash -> bool, st: State, b: BlockInfo)
    ensures ImportBlock(sup, st, b).asked == st.asked && ImportBlock(sup, st, b).canceled == st.canceled
  {
    hide Activate, DropParent, CleanUp;
    var st0 := st.(active := st.active[b.hash := b.number]);
    var st1 := Activate(sup, st0, b.hash, Some(b.parentHash)).0;
    ActivateEffect(sup, st0, b.hash, Some(b.parentHash));
    DropParentEffect(st1, b.parentHash);
    CleanUpEffect(DropParent(st1, b.parentHash));
  }

  lemma FinalizeAsked(st: State, b: BlockInfo, order: seq<Hash>)
    ensures FinalizeBlock(st, b, order).asked == st.asked && FinalizeBlock(st, b, order).canceled == st.canceled
  {
    hide DeactivateAll;
    DeactivateAllAsked(st.(active := st.active - Pruned(st, b)), order);
  }

  lemma WaitAsked(st: State, h: Hash, id: ListenerId)
    ensures Wait(st, h, id).asked == st.asked[id := h] && Wait(st, h, id).canceled == st.canceled
  {
    hide Live, Settle;
  }

  lemma AskedFrame(sup: Hash -> bool, st: State, e: Event)
    ensures Apply(sup, st, e).asked == if e.Ask? then st.asked[e.listener := e.hash] else st.asked
    ensures Apply(sup, st, e).canceled == if e.GiveUp? then st.canceled + {e.listener} else st.canceled
  {
    hide ImportBlock, FinalizeBlock, Wait;
    match e {
      case Import(b) => ImportAsked(sup, st, b);
      case Finalize(b, order) => FinalizeAsked(st, b, order);
      case Ask(h, id) => WaitAsked(st, h, id);
      case GiveUp(_) =>
    }
  }

  lemma {:induction false} DeactivateAllAsked(st: State, hs: seq<Hash>)
    ensures DeactivateAll(st, hs).asked == st.asked && DeactivateAll(st, hs).canceled == st.canceled
  {
    hide Settle;
    if hs != [] {
      DeactivateAllAsked(st, hs[..|hs| - 1]);
    }
  }

  lemma {:induction false} StartAsked(sup: Hash -> bool, leaves: seq<(Hash, nat)>)
    ensures Start(sup, leaves).asked == map[] && Start(sup, leaves).canceled == {}
  {
    hide Put, Settle;
    if leaves != [] {
      StartAsked(sup, leaves[..|leaves| - 1]);
    }
  }

  ghost predicate MatchesHistory(st: State, evs: seq<Event>) {
    && (forall h, id :: Ask(h, id) in evs <==> id in st.asked && st.asked[id] == h)
    && (forall id :: GiveUp(id) in evs <==> id in st.canceled)
  }

  lemma HistoryOneMore(st: State, st': State, evs: seq<Event>, e: Event)
    requires MatchesHistory(st, evs) && (e.Ask? ==> e.listener !in st.asked)
    requires st'.asked == if e.Ask? then st.asked[e.listener := e.hash] else st.asked
    requires st'.canceled == if e.GiveUp? then st.canceled + {e.listener} else st.canceled
    ensures MatchesHistory(st', evs + [e])
  {
    assert forall x :: x in evs + [e] <==> x in evs || x == e;
  }

  /** The history of requests and cancellations is the one in the events. */
  lemma {:induction false} AskedIsHistory(sup: Hash -> bool, leaves: seq<(Hash, nat)>, evs: seq<Event>)
    requires Possible(sup, leaves, evs)
    ensures MatchesHistory(Run(sup, leaves, evs), evs)
  {
    hide Apply, Start;
    if evs == [] {
      StartAsked(sup, leaves);
    } else {
      var before, e := evs[..|evs| - 1], evs[|evs| - 1];
      PossiblePrefix(sup, leaves, evs);
      AskedIsHistory(sup, leaves, before);
      AskedFrame(sup, Run(sup, leaves, before), e);
      assert evs == before + [e];
      hide MatchesHistory;
      HistoryOneMore(Run(sup, leaves, before), Run(sup, leaves, evs), before, e);
    }
  }

  // ---- Answers are sent once ----

  /** No listener was sent two answers, and exactly those whose fate it is were sent one. */
  ghost predicate AnswersOnce(st: State) {
    && NoRepeats(st.answers)
    && (forall id :: id in st.answers <==> id in st.asked && Settled(id, st.asked[id], Answered) in st.settled)
  }

  lemma AnswersFrame(st: State, st': State)
    requires AnswersOnce(st)
    requires st'.answers == st.answers && st'.asked == st.asked && st.settled <= st'.settled
    requires forall x | x in st'.settled && x.fate == Answered :: x in st.settled
    ensures AnswersOnce(st')
  {
  }

  lemma NoRepeatsAppend(xs: seq<ListenerId>, ys: seq<ListenerId>)
    requires NoRepeats(xs) && NoRepeats(ys) && forall id | id in ys :: id !in xs
    ensures NoRepeats(xs + ys)
  {
    var all := xs + ys;
    forall i, j | 0 <= i < j < |all| ensures all[i] != all[j] {
      if i < |xs| <= j {
        assert all[i] in xs && all[j] in ys;
      }
    }
  }

  lemma AnsweringOnce(st: State, h: Hash)
    requires PendingSound(st) && AnswersOnce(st)
    ensures AnswersOnce(SettleHead(st, h, Answered))
  {
    if h in st.listeners {
      var st', ids := SettleHead(st, h, Answered), st.listeners[h];
      LiveElements(ids, st.canceled);
      hide Live;
      assert forall id | id in ids :: IsPending(st, id, h) && !IsSettled(st, id);
      NoRepeatsAppend(st.answers, Live(ids, st.canceled));
      forall id | id in st'.asked
        ensures id in st'.answers <==> Settled(id, st'.asked[id], Answered) in st'.settled
      {
        assert Settled(id, h, Answered) in Settle(ids, h, Answered, st.canceled)
          <==> id in Live(ids, st.canceled);
      }
    }
  }

  lemma DroppingOnce(st: State, h: Hash)
    requires AnswersOnce(st)
    ensures AnswersOnce(Deactivate(st, h))
  {
    AnswersFrame(st, Deactivate(st, h));
  }

  lemma {:induction false} DroppingAllOnce(st: State, hs: seq<Hash>)
    requires AnswersOnce(st)
    ensures AnswersOnce(DeactivateAll(st, hs))
  {
    hide AnswersOnce, Deactivate;
    if hs != [] {
      DroppingAllOnce(st, hs[..|hs| - 1]);
      DroppingOnce(DeactivateAll(st, hs[..|hs| - 1]), hs[|hs| - 1]);
    }
  }

  lemma ActivatingOnce(sup: Hash -> bool, st: State, h: Hash, parent: Option<Hash>)
    requires PendingSound(st) && AnswersOnce(st)
    ensures AnswersOnce(Activate(sup, st, h, parent).0)
  {
    hide PendingSound, SettleHead, Put;
    if sup(h) {
      AnsweringOnce(st, h);
      hide AnswersOnce;
      AnswersFrame(SettleHead(st, h, Answered), Activate(sup, st, h, parent).0);
    }
  }

  lemma CleaningOnce(st: State)
    requires AnswersOnce(st)
    ensures AnswersOnce(CleanUp(st))
  {
    var st' := CleanUp(st);
    assert st'.answers == st.answers && st'.asked == st.asked;
    hide AnswersOnce, Live;
    AnswersFrame(st, st');
  }

  lemma ImportOnce(sup: Hash -> bool, st: State, b: BlockInfo)
    requires PendingSound(st) && AnswersOnce(st)
    ensures AnswersOnce(ImportBlock(sup, st, b))
  {
    hide AnswersOnce, Activate, CleanUp, Deactivate;
    if b.hash !in st.active {
      var st0 := st.(active := st.active[b.hash := b.number]);
      SamePending(st, st0);
      AnswersFrame(st, st0);
      ActivatingOnce(sup, st0, b.hash, Some(b.parentHash));
      var st1 := Activate(sup, st0, b.hash, Some(b.parentHash)).0;
      var st2 := DropParent(st1, b.parentHash);
      if b.parentHash in st1.active {
        AnswersFrame(st1, st1.(active := st1.active - {b.parentHash}));
        DroppingOnce(st1.(active := st1.active - {b.parentHash}), b.parentHash);
      }
      CleaningOnce(st2);
      AnswersFrame(CleanUp(st2), ImportBlock(sup, st, b));
    }
  }

  lemma SamePending(st: State, st': State)
    requires PendingSound(st) && st' == st.(active := st'.active)
    ensures PendingSound(st')
  {
    assert forall id, h :: IsPending(st', id, h) <==> IsPending(st, id, h);
    assert forall id :: IsSettled(st', id) <==> IsSettled(st, id);
  }

  lemma FinalizeOnce(st: State, b: BlockInfo, order: seq<Hash>)
    requires AnswersOnce(st)
    ensures AnswersOnce(FinalizeBlock(st, b, order))
  {
    hide AnswersOnce, DeactivateAll;
    var st0 := st.(active := st.active - Pruned(st, b));
    AnswersFrame(st, st0);
    DroppingAllOnce(st0, order);
    AnswersFrame(DeactivateAll(st0, order), FinalizeBlock(st, b, order));
  }

  lemma AskOnce(st: State, h: Hash, id: ListenerId, act: set<Hash>, deact: set<Hash>)
    requires SettledSound(st, act, deact) && AnswersOnce(st) && id !in st.asked
    ensures AnswersOnce(Wait(st, h, id))
  {
    var st', sent := Wait(st, h, id), Live([id], st.canceled);
    LiveOne(id, st.canceled);
    WaitEffect(st, h, id);
    hide Wait, Live, Settle;
    assert forall x | x in st.settled :: x.listener != id;
    NoRepeatsAppend(st.answers, sent);
    forall id' ensures id' in st'.answers <==>
      id' in st'.asked && Settled(id', st'.asked[id'], Answered) in st'.settled
    {
      assert id' in st.answers <==> id' in st.asked && Settled(id', st.asked[id'], Answered) in st.settled;
    }
  }

  lemma StepOnce(sup: Hash -> bool, st: State, e: Event)
    requires FatesNow(st) && AnswersOnce(st) && Enabled(st, e)
    ensures AnswersOnce(Apply(sup, st, e))
  {
    hide AnswersOnce, PendingSound, SettledSound, ImportBlock, FinalizeBlock, Wait;
    match e {
      case Import(b) => ImportOnce(sup, st, b);
      case Finalize(b, order) => FinalizeOnce(st, b, order);
      case Ask(h, id) => AskOnce(st, h, id, Elements(Activations(st.signals)), Deactivations(st.signals));
      case GiveUp(id) => AnswersFrame(st, Cancel(st, id));
    }
  }

  lemma StartLeafOnce(sup: Hash -> bool, st: State, leaf: (Hash, nat))
    requires PendingSound(st) && AnswersOnce(st)
    ensures AnswersOnce(StartLeaf(sup, st, leaf))
  {
    hide AnswersOnce, PendingSound, Activate;
    var st0 := st.(active := st.active[leaf.0 := leaf.1]);
    SamePending(st, st0);
    AnswersFrame(st, st0);
    ActivatingOnce(sup, st0, leaf.0, None);
    AnswersFrame(Activate(sup, st0, leaf.0, None).0, StartLeaf(sup, st, leaf));
  }

  lemma {:induction false} StartOnce(sup: Hash -> bool, leaves: seq<(Hash, nat)>)
    ensures AnswersOnce(Start(sup, leaves))
  {
    hide StartLeaf;
    if leaves != [] {
      var before := leaves[..|leaves| - 1];
      StartFates(sup, before);
      StartOnce(sup, before);
      StartLeafOnce(sup, Start(sup, before), leaves[|leaves| - 1]);
    }
  }

  lemma {:induction false} RunOnce(sup: Hash -> bool, leaves: seq<(Hash, nat)>, evs: seq<Event>)
    requires Possible(sup, leaves, evs)
    ensures AnswersOnce(Run(sup, leaves, evs))
  {
    hide AnswersOnce, FatesNow, Apply, Enabled, Start;
    if evs == [] {
      StartOnce(sup, leaves);
    } else {
      var before := evs[..|evs| - 1];
      PossiblePrefix(sup, leaves, evs);
      RunFates(sup, leaves, before);
      RunOnce(sup, leaves, before);
      StepOnce(sup, Run(sup, leaves, before), evs[|evs| - 1]);
    }
  }

  lemma {:induction false} CountOfDistinct(ids: seq<ListenerId>, id: ListenerId)
    requires NoRepeats(ids)
    ensures multiset(ids)[id] == if id in ids then 1 else 0
  {
    if ids != [] {
      var front, last := ids[..|ids| - 1], ids[|ids| - 1];
      assert ids == front + [last];
      CountOfDistinct(front, id);
    }
  }

  /**
   Exactly one fate for each request, and each fate has its cause in the history; one
   answer is sent if the request was answered, and none otherwise.
   */
  lemma {:induction false} ListenerFate(sup: Hash -> bool, leaves: seq<(Hash, nat)>, evs: seq<Event>,
                                        h: Hash, id: ListenerId)
    requires Possible(sup, leaves, evs) && Ask(h, id) in evs
    ensures var st := Run(sup, leaves, evs);
      && (IsPending(st, id, h) <==> !IsSettled(st, id))
      && (forall h' | IsPending(st, id, h') :: h' == h && h !in st.known)
      && (forall x, y | x in st.settled && y in st.settled && x.listener == id && y.listener == id :: x == y)
      && (Settled(id, h, Answered) in st.settled ==> h in Activations(st.signals))
      && (Settled(id, h, HeadDeactivated) in st.settled ==> h in Deactivations(st.signals))
      && (Settled(id, h, RequesterGone) in st.settled ==> GiveUp(id) in evs)
      && (IsSettled(st, id) ==> exists fate :: Settled(id, h, fate) in st.settled)
      && multiset(st.answers)[id] == (if Settled(id, h, Answered) in st.settled then 1 else 0)
  {
    RunFates(sup, leaves, evs);
    RunOnce(sup, leaves, evs);
    AskedIsHistory(sup, leaves, evs);
    var st := Run(sup, leaves, evs);
    hide Run;
    CountOfDistinct(st.answers, id);
    if IsSettled(st, id) {
      var x :| x in st.settled && x.listener == id;
      assert x == Settled(id, h, x.fate);
    }
  }

  /** Nobody else is ever sent an answer. */
  lemma {:induction false} OnlyRequestersAnswered(sup: Hash -> bool, leaves: seq<(Hash, nat)>, evs: seq<Event>,
                                                  id: ListenerId)
    requires Possible(sup, leaves, evs) && id in Run(sup, leaves, evs).answers
    ensures exists h :: Ask(h, id) in evs
  {
    RunOnce(sup, leaves, evs);
    AskedIsHistory(sup, leaves, evs);
    assert Ask(Run(sup, leaves, evs).asked[id], id) in evs;
  }

  // ---- Fates are final ----

  lemma {:induction false} DeactivateAllSettles(st: State, hs: seq<Hash>)
    ensures st.settled <= DeactivateAll(st, hs).settled
  {
    hide Settle;
    if hs != [] {
      DeactivateAllSettles(st, hs[..|hs| - 1]);
    }
  }

  lemma StepSettles(sup: Hash -> bool, st: State, e: Event)
    ensures st.settled <= Apply(sup, st, e).settled
  {
    hide Settle, DeactivateAll, Put, Live;
    if e.Finalize? {
      DeactivateAllSettles(st.(active := st.active - Pruned(st, e.finalized)), e.order);
    }
  }

  /** What became of a listener never changes afterwards. */
  lemma {:induction false} FateFinal(sup: Hash -> bool, leaves: seq<(Hash, nat)>, evs: seq<Event>, more: seq<Event>)
    ensures Run(sup, leaves, evs).settled <= Run(sup, leaves, evs + more).settled
    decreases |more|
  {
    hide Apply;
    if more == [] {
      assert evs + more == evs;
    } else {
      var less := more[..|more| - 1];
      assert (evs + more)[..|evs + more| - 1] == evs + less;
      FateFinal(sup, leaves, evs, less);
      StepSettles(sup, Run(sup, leaves, evs + less), more[|more| - 1]);
    }
  }
}

/**
 Listeners of one head are kept, and answered, in the order in which they asked, and no
 head is kept without a listener.
 */
module OverseerOrder {
  import opened Options
  import opened Overseer
  import opened OverseerListeners

  /** The requests of a run, in order. */
  function Requests(evs: seq<Event>): seq<ListenerId> {
    if evs == [] then []
    else Requests(evs[..|evs| - 1]) + if evs[|evs| - 1].Ask? then [evs[|evs| - 1].listener] else []
  }

  /** `id1` asked before `id2`. */
  ghost predicate Earlier(asked: seq<ListenerId>, id1: ListenerId, id2: ListenerId) {
    exists p, q :: 0 <= p < q < |asked| && asked[p] == id1 && asked[q] == id2
  }

  /** `ids` have asked, and are in the order of asking. */
  ghost predicate InOrder(asked: seq<ListenerId>, ids: seq<ListenerId>) {
    && (forall i | 0 <= i < |ids| :: ids[i] in asked)
    && (forall i, j | 0 <= i < j < |ids| :: Earlier(asked, ids[i], ids[j]))
  }

  ghost predicate Ordered(asked: seq<ListenerId>, st: State) {
    forall h | h in st.listeners :: st.listeners[h] != [] && InOrder(asked, st.listeners[h])
  }

  lemma EarlierStays(asked: seq<ListenerId>, id: ListenerId, id1: ListenerId, id2: ListenerId)
    requires Earlier(asked, id1, id2)
    ensures Earlier(asked + [id], id1, id2)
  {
    var p, q :| 0 <= p < q < |asked| && asked[p] == id1 && asked[q] == id2;
    assert (asked + [id])[p] == id1 && (asked + [id])[q] == id2;
  }

  lemma InOrderStays(asked: seq<ListenerId>, id: ListenerId, ids: seq<ListenerId>)
    requires InOrder(asked, ids)
    ensures InOrder(asked + [id], ids)
  {
    hide Earlier;
    forall i, j | 0 <= i < j < |ids| ensures Earlier(asked + [id], ids[i], ids[j]) {
      EarlierStays(asked, id, ids[i], ids[j]);
    }
  }

  lemma InOrderAppend(asked: seq<ListenerId>, id: ListenerId, ids: seq<ListenerId>)
    requires InOrder(asked, ids)
    ensures InOrder(asked + [id], ids + [id])
  {
    InOrderStays(asked, id, ids);
    var all := asked + [id];
    assert all[|asked|] == id;
    forall i | 0 <= i < |ids| ensures Earlier(all, ids[i], id) {
      var p :| 0 <= p < |asked| && asked[p] == ids[i];
      assert all[p] == ids[i];
    }
  }

  lemma InOrderTail(asked: seq<ListenerId>, ids: seq<ListenerId>)
    requires InOrder(asked, ids) && ids != []
    ensures InOrder(asked, ids[1..])
    ensures forall x | x in ids[1..] :: Earlier(asked, ids[0], x)
  {
    hide Earlier;
  }

  lemma InOrderCons(asked: seq<ListenerId>, id: ListenerId, ids: seq<ListenerId>)
    requires InOrder(asked, ids) && id in asked && forall x | x in ids :: Earlier(asked, id, x)
    ensures InOrder(asked, [id] + ids)
  {
    hide Earlier;
    var all := [id] + ids;
    assert forall i | 0 < i < |all| :: all[i] == ids[i - 1] && all[i] in ids;
  }

  lemma {:induction false} LiveInOrder(asked: seq<ListenerId>, ids: seq<ListenerId>, canceled: set<ListenerId>)
    requires InOrder(asked, ids)
    ensures InOrder(asked, Live(ids, canceled))
  {
    hide Earlier;
    if ids != [] {
      InOrderTail(asked, ids);
      LiveInOrder(asked, ids[1..], canceled);
      LiveElements(ids[1..], canceled);
      if ids[0] !in canceled {
        assert ids[0] in asked;
        hide InOrder;
        InOrderCons(asked, ids[0], Live(ids[1..], canceled));
      }
    }
  }

  // ---- Steps ----

  lemma FewerOrdered(asked: seq<ListenerId>, st: State, st': State)
    requires Ordered(asked, st)
    requires forall h | h in st'.listeners :: h in st.listeners && st'.listeners[h] == st.listeners[h]
    ensures Ordered(asked, st')
  {
    hide InOrder;
  }

  lemma CleanUpOrdered(asked: seq<ListenerId>, st: State)
    requires Ordered(asked, st)
    ensures Ordered(asked, CleanUp(st))
  {
    hide InOrder, Live;
    forall h | h in CleanUp(st).listeners ensures InOrder(asked, CleanUp(st).listeners[h]) {
      LiveInOrder(asked, st.listeners[h], st.canceled);
    }
  }

  lemma WaitOrdered(asked: seq<ListenerId>, st: State, h: Hash, id: ListenerId)
    requires Ordered(asked, st)
    ensures Ordered(asked + [id], Wait(st, h, id))
  {
    hide InOrder, Live, Settle;
    var st' := Wait(st, h, id);
    NobodyInOrder(asked);
    forall h' | h' in st'.listeners ensures st'.listeners[h'] != [] && InOrder(asked + [id], st'.listeners[h']) {
      if h' == h && h !in st.known {
        InOrderAppend(asked, id, if h in st.listeners then st.listeners[h] else []);
      } else {
        InOrderStays(asked, id, st.listeners[h']);
      }
    }
  }

  lemma NobodyInOrder(asked: seq<ListenerId>)
    ensures InOrder(asked, [])
  {
  }

  lemma ActivateListeners(sup: Hash -> bool, st: State, h: Hash, parent: Option<Hash>)
    ensures Activate(sup, st, h, parent).0.listeners == if sup(h) then st.listeners - {h} else st.listeners
  {
    hide Live, Settle, Put;
    assert h !in st.listeners ==> st.listeners - {h} == st.listeners;
  }

  lemma DropParentListeners(st: State, parent: Hash)
    ensures DropParent(st, parent).listeners == if parent in st.active then st.listeners - {parent} else st.listeners
  {
    hide Live, Settle;
    assert parent !in st.listeners ==> st.listeners - {parent} == st.listeners;
  }

  lemma {:induction false} DeactivateAllListeners(st: State, hs: seq<Hash>)
    ensures forall h | h in DeactivateAll(st, hs).listeners ::
      h in st.listeners && DeactivateAll(st, hs).listeners[h] == st.listeners[h]
  {
    hide Live, Settle;
    if hs != [] {
      DeactivateAllListeners(st, hs[..|hs| - 1]);
    }
  }

  lemma ImportOrdered(asked: seq<ListenerId>, sup: Hash -> bool, st: State, b: BlockInfo)
    requires Ordered(asked, st)
    ensures Ordered(asked, ImportBlock(sup, st, b))
  {
    hide Activate, DropParent, CleanUp, Ordered;
    if b.hash !in st.active {
      var st0 := st.(active := st.active[b.hash := b.number]);
      ActivateListeners(sup, st0, b.hash, Some(b.parentHash));
      var st1 := Activate(sup, st0, b.hash, Some(b.parentHash)).0;
      var st2 := DropParent(st1, b.parentHash);
      DropParentListeners(st1, b.parentHash);
      FewerOrdered(asked, st, st2);
      CleanUpOrdered(asked, st2);
      FewerOrdered(asked, CleanUp(st2), ImportBlock(sup, st, b));
    }
  }

  lemma StepOrdered(asked: seq<ListenerId>, sup: Hash -> bool, st: State, e: Event)
    requires Ordered(asked, st)
    ensures Ordered(asked + if e.Ask? then [e.listener] else [], Apply(sup, st, e))
  {
    hide Ordered, ImportBlock, Wait, DeactivateAll;
    assert asked + [] == asked;
    match e {
      case Import(b) => ImportOrdered(asked, sup, st, b);
      case Finalize(b, order) =>
        DeactivateAllListeners(st.(active := st.active - Pruned(st, b)), order);
        FewerOrdered(asked, st, Apply(sup, st, e));
      case Ask(h, id) => WaitOrdered(asked, st, h, id);
      case GiveUp(id) => FewerOrdered(asked, st, Cancel(st, id));
    }
  }

  lemma {:induction false} NobodyAtStart(sup: Hash -> bool, leaves: seq<(Hash, nat)>)
    ensures Start(sup, leaves).listeners == map[]
  {
    hide Activate;
    if leaves != [] {
      var before, leaf := leaves[..|leaves| - 1], leaves[|leaves| - 1];
      NobodyAtStart(sup, before);
      var st := Start(sup, before);
      ActivateListeners(sup, st.(active := st.active[leaf.0 := leaf.1]), leaf.0, None);
    }
  }

  /** In every run the listeners of a head are in the order of asking, and there is at least one. */
  lemma {:induction false} ListenersInOrder(sup: Hash -> bool, leaves: seq<(Hash, nat)>, evs: seq<Event>)
    ensures Ordered(Requests(evs), Run(sup, leaves, evs))
  {
    hide Apply, Start;
    if evs == [] {
      NobodyAtStart(sup, leaves);
    } else {
      var before, e := evs[..|evs| - 1], evs[|evs| - 1];
      ListenersInOrder(sup, leaves, before);
      hide Ordered;
      StepOrdered(Requests(before), sup, Run(sup, leaves, before), e);
    }
  }

  /** Activation answers those still there, in the order of asking; what was sent before stays. */
  lemma {:induction false} AnswersInOrder(sup: Hash -> bool, leaves: seq<(Hash, nat)>, evs: seq<Event>, b: BlockInfo)
    returns (sent: seq<ListenerId>)
    requires sup(b.hash) && b.hash !in Run(sup, leaves, evs).active
    ensures var st := Run(sup, leaves, evs);
      && Run(sup, leaves, evs + [Import(b)]).answers == st.answers + sent
      && InOrder(Requests(evs), sent)
      && (forall id :: id in sent <==> IsPending(st, id, b.hash) && id !in st.canceled)
  {
    hide Apply, Start, Requests, InOrder;
    var st := Run(sup, leaves, evs);
    sent := if b.hash in st.listeners then Live(st.listeners[b.hash], st.canceled) else [];
    NobodyInOrder(Requests(evs));
    if b.hash in st.listeners {
      ListenersInOrder(sup, leaves, evs);
      LiveInOrder(Requests(evs), st.listeners[b.hash], st.canceled);
      LiveElements(st.listeners[b.hash], st.canceled);
    }
    assert (evs + [Import(b)])[..|evs|] == evs;
    ImportAnswers(sup, st, b);
    ImportApplies(sup, st, b);
  }

  lemma ImportApplies(sup: Hash -> bool, st: State, b: BlockInfo)
    ensures Apply(sup, st, Import(b)) == ImportBlock(sup, st, b)
  {
  }

  lemma ImportAnswers(sup: Hash -> bool, st: State, b: BlockInfo)
    requires sup(b.hash) && b.hash !in st.active
    ensures ImportBlock(sup, st, b).answers ==
            st.answers + if b.hash in st.listeners then Live(st.listeners[b.hash], st.canceled) else []
  {
    hide Live, Settle, Put, CleanUp, Deactivate;
    var st0 := st.(active := st.active[b.hash := b.number]);
    var st1 := Activate(sup, st0, b.hash, Some(b.parentHash)).0;
    DroppingSendsNothing(st1.(active := st1.active - {b.parentHash}), b.parentHash);
    CleaningSendsNothing(DropParent(st1, b.parentHash));
    assert st.answers + [] == st.answers;
  }

  lemma DroppingSendsNothing(st: State, h: Hash)
    ensures Deactivate(st, h).answers == st.answers
  {
    hide Live, Settle;
  }

  lemma CleaningSendsNothing(st: State)
    ensures CleanUp(st).answers == st.answers
  {
    hide Live;
  }
}

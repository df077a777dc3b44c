/**
 The overseer's event handlers as they run: each updates the collections in place, and
 leaves them exactly as `Overseer` says.
 */
module OverseerProcess {
  import opened Options
  import opened Overseer

  lemma SettleAppend(ids: seq<ListenerId>, id: ListenerId, h: Hash, fate: Fate, canceled: set<ListenerId>)
    ensures Settle(ids + [id], h, fate, canceled) == Settle(ids, h, fate, canceled) + Settle([id], h, fate, canceled)
  {
    assert forall x :: x in ids + [id] <==> x in ids || x in [id];
  }

  lemma {:induction false} LiveAppend(ids: seq<ListenerId>, id: ListenerId, canceled: set<ListenerId>)
    ensures Live(ids + [id], canceled) == Live(ids, canceled) + Live([id], canceled)
  {
    if ids == [] {
      assert [] + [id] == [id];
    } else {
      assert (ids + [id])[1..] == ids[1..] + [id];
      LiveAppend(ids[1..], id, canceled);
    }
  }

  lemma NobodySettled(h: Hash, canceled: set<ListenerId>)
    ensures Live([], canceled) == [] && Settle([], h, Answered, canceled) == {}
  {
  }

  class Process {
    const supports: Hash -> bool
    var active: map<Hash, nat>
    var spans: map<Hash, Span>
    var known: seq<Hash>
    var listeners: map<Hash, seq<ListenerId>>
    /** What has been broadcast. */
    var signals: seq<Signal>
    /** The listeners that were sent an answer, in order. */
    var answers: seq<ListenerId>
    /** Which requesters have dropped their end of the channel. */
    var canceled: set<ListenerId>
    ghost var settled: set<Settled>
    ghost var asked: map<ListenerId, Hash>

    ghost function Contents(): State
      reads this
    {
      State(active, spans, known, listeners, signals, answers, settled, asked, canceled)
    }

    constructor (supports: Hash -> bool)
      ensures this.supports == supports && Contents() == INITIAL
    {
      this.supports := supports;
      active, spans, known, listeners, signals, answers, canceled := map[], map[], [], map[], [], [], {};
      settled, asked := {}, map[];
    }

    method OnHeadActivated(h: Hash, parent: Option<Hash>) returns (a: Option<(Span, LeafStatus)>)
      modifies this`spans, this`known, this`listeners, this`answers, this`settled
      ensures (Contents(), a) == Activate(supports, old(Contents()), h, parent)
    {
      if !supports(h) {
        return None;
      }
      AnswerListeners(h);
      var follows := None;
      if parent.Some? && parent.value in spans {
        follows := parent;
      }
      var span := Span(h, follows);
      spans := spans[h := span];
      var status := Fresh;
      if h in known {
        status := Stale;
      }
      known := Put(known, h);
      a := Some((span, status));
    }

    /** Takes the listeners waiting for `h` out of the map and sends to each in turn. */
    method AnswerListeners(h: Hash)
      modifies this`listeners, this`answers, this`settled
      ensures Contents() == SettleHead(old(Contents()), h, Answered)
    {
      hide Settle, Live;
      if h in listeners {
        var ids := listeners[h];
        listeners := listeners - {h};
        assert ids[..0] == [];
        NobodySettled(h, canceled);
        for i := 0 to |ids|
          invariant Contents() == old(Contents()).(listeners := listeners, answers := answers, settled := settled)
          invariant listeners == old(listeners) - {h}
          invariant answers == old(answers) + Live(ids[..i], canceled)
          invariant settled == old(settled) + Settle(ids[..i], h, Answered, canceled)
        {
          assert ids[..i + 1] == ids[..i] + [ids[i]];
          LiveAppend(ids[..i], ids[i], canceled);
          SettleAppend(ids[..i], ids[i], h, Answered, canceled);
          Send(ids[i], h);
        }
        assert ids[..|ids|] == ids;
      }
    }

    /** Sends an answer on the listener's channel, in vain if its requester is gone. */
    method Send(id: ListenerId, h: Hash)
      modifies this`answers, this`settled
      ensures answers == old(answers) + Live([id], canceled)
      ensures settled == old(settled) + Settle([id], h, Answered, canceled)
    {
      settled := settled + {Settled(id, h, if id in canceled then RequesterGone else Answered)};
      if id !in canceled {
        answers := answers + [id];
      }
    }

    method OnHeadDeactivated(h: Hash)
      modifies this`listeners, this`settled, this`spans
      ensures Contents() == Deactivate(old(Contents()), h)
    {
      if h in listeners {
        settled := settled + Settle(listeners[h], h, HeadDeactivated, canceled);
      }
      listeners := listeners - {h};
      spans := spans - {h};
      assert old(h !in listeners) ==> listeners == old(listeners);
    }

    method CleanUpExternalListeners()
      modifies this`listeners, this`settled
      ensures Contents() == CleanUp(old(Contents()))
    {
      var kept: map<Hash, seq<ListenerId>> := map[];
      var rest := listeners.Keys;
      while rest != {}
        invariant rest <= listeners.Keys
        invariant kept == map h | h in listeners.Keys - rest && Live(listeners[h], canceled) != []
                            :: Live(listeners[h], canceled)
        decreases rest
      {
        var h :| h in rest;
        rest := rest - {h};
        var live := Live(listeners[h], canceled);
        if live != [] {
          kept := kept[h := live];
        }
      }
      settled := CleanUp(Contents()).settled;
      listeners := kept;
      assert listeners == CleanUp(old(Contents())).listeners;
    }

    method Broadcast(u: Update)
      modifies this`signals
      ensures Contents() == Announce(old(Contents()), u)
    {
      if u.activated.Some? || u.deactivated != [] {
        signals := signals + [ActiveLeaves(u)];
      }
    }

    /** The startup loop over the leaves the overseer begins with. */
    method NotifyLeaves(leaves: seq<(Hash, nat)>)
      requires Contents() == INITIAL
      modifies this
      ensures Contents() == Start(supports, leaves)
    {
      for i := 0 to |leaves|
        invariant Contents() == Start(supports, leaves[..i])
      {
        ghost var before := Contents();
        var (h, number) := leaves[i];
        active := active[h := number];
        var a := OnHeadActivated(h, None);
        Broadcast(Update(LeafOf(h, number, a), []));
        assert Contents() == StartLeaf(supports, before, leaves[i]);
        assert leaves[..i + 1][..i] == leaves[..i];
      }
      assert leaves[..|leaves|] == leaves;
    }

    method BlockImported(b: BlockInfo)
      modifies this
      ensures Contents() == ImportBlock(supports, old(Contents()), b)
      ensures active == if b.hash in old(active) then old(active) else old(active)[b.hash := b.number] - {b.parentHash}
    {
      hide Activate, CleanUp, Deactivate, Announce;
      if b.hash in active {
        return;
      }
      active := active[b.hash := b.number];
      var a := OnHeadActivated(b.hash, Some(b.parentHash));
      var deactivated := [];
      if b.parentHash in active {
        active := active - {b.parentHash};
        deactivated := [b.parentHash];
        OnHeadDeactivated(b.parentHash);
      }
      CleanUpExternalListeners();
      Broadcast(Update(LeafOf(b.hash, b.number, a), deactivated));
    }

    method BlockFinalized(b: BlockInfo) returns (ghost order: seq<Hash>)
      modifies this
      ensures Visits(order, Pruned(old(Contents()), b))
      ensures Contents() == FinalizeBlock(old(Contents()), b, order)
      ensures active == map h | h in old(active) && (h == b.hash || old(active)[h] > b.number) :: old(active)[h]
    {
      var deactivated := Prune(b);
      order := deactivated;
      DeactivateEach(deactivated);
      signals := signals + [Signal.BlockFinalized(b.hash, b.number)];
      Broadcast(Update(None, deactivated));
    }

    /** Retains the leaves that survive finality, noting the others as it meets them. */
    method Prune(b: BlockInfo) returns (deactivated: seq<Hash>)
      modifies this`active
      ensures Visits(deactivated, Pruned(old(Contents()), b))
      ensures Contents() == old(Contents()).(active := old(active) - Pruned(old(Contents()), b))
      ensures forall h :: h in deactivated <==> h in old(active) && old(active)[h] <= b.number && h != b.hash
      ensures active == map h | h in old(active) && (h == b.hash || old(active)[h] > b.number) :: old(active)[h]
    {
      deactivated := [];
      var rest := active.Keys;
      while rest != {}
        invariant rest <= old(active).Keys
        invariant Contents() == old(Contents()).(active := active)
        invariant active == old(active) - (Pruned(old(Contents()), b) - rest)
        invariant Visits(deactivated, Pruned(old(Contents()), b) - rest)
        decreases rest
      {
        var h :| h in rest;
        rest := rest - {h};
        if active[h] <= b.number && h != b.hash {
          active := active - {h};
          deactivated := deactivated + [h];
        }
      }
    }

    method DeactivateEach(hs: seq<Hash>)
      modifies this`listeners, this`settled, this`spans
      ensures Contents() == DeactivateAll(old(Contents()), hs)
    {
      for i := 0 to |hs|
        invariant Contents() == DeactivateAll(old(Contents()), hs[..i])
      {
        assert hs[..i + 1][..i] == hs[..i];
        OnHeadDeactivated(hs[i]);
      }
      assert hs[..|hs|] == hs;
    }

    method HandleExternalRequest(h: Hash, id: ListenerId)
      modifies this`listeners, this`answers, this`settled, this`asked
      ensures Contents() == Wait(old(Contents()), h, id)
    {
      asked := asked[id := h];
      if h in known {
        Send(id, h);
      } else {
        if h !in listeners {
          listeners := listeners[h := []];
        }
        listeners := listeners[h := listeners[h] + [id]];
        assert listeners == Wait(old(Contents()), h, id).listeners;
      }
    }
  }
}

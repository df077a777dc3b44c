/**
 How the overseer tracks active leaves: block imports, finalisations and requests to
 wait for a head update the leaf set, the spans, the cache of known heads and the
 pending listeners, and are broadcast to subsystems as deltas.

 A `State` holds those four collections together with what left the overseer so far:
 the signals broadcast, the answers sent, and the fate of every listener that is no
 longer pending.
 */
module Overseer {
  import opened Options

  datatype Hash = Hash(bits: nat)
  datatype ListenerId = ListenerId(index: nat)
  datatype BlockInfo = BlockInfo(hash: Hash, parentHash: Hash, number: nat)
  datatype LeafStatus = Fresh | Stale

  /** A span for a leaf, and the leaf whose span it follows from. */
  datatype Span = Span(leaf: Hash, follows: Option<Hash>)

  datatype ActivatedLeaf = ActivatedLeaf(hash: Hash, number: nat, status: LeafStatus, span: Span)
  datatype Update = Update(activated: Option<ActivatedLeaf>, deactivated: seq<Hash>)
  datatype Signal = ActiveLeaves(update: Update) | BlockFinalized(hash: Hash, number: nat)

  /** What became of a listener: answered, or dropped for one of two reasons. */
  datatype Fate = Answered | HeadDeactivated | RequesterGone
  datatype Settled = Settled(listener: ListenerId, hash: Hash, fate: Fate)

  datatype State = State(
    active: map<Hash, nat>,
    spans: map<Hash, Span>,
    known: seq<Hash>,
    listeners: map<Hash, seq<ListenerId>>,
    signals: seq<Signal>,
    answers: seq<ListenerId>,
    settled: set<Settled>,
    asked: map<ListenerId, Hash>,
    canceled: set<ListenerId>)

  const INITIAL := State(map[], map[], [], map[], [], [], {}, map[], {})

  /** Two days of blocks, one every six seconds. */
  const KNOWN_LEAVES_CACHE_SIZE: nat := 2 * 24 * 3600 / 6

  // ---- The cache of known heads, most recently used first ----

  function Without(s: seq<Hash>, h: Hash): seq<Hash> {
    if s == [] then []
    else if s[0] == h then Without(s[1..], h)
    else [s[0]] + Without(s[1..], h)
  }

  function Take(s: seq<Hash>, n: nat): seq<Hash> {
    if |s| <= n then s else s[..n]
  }

  /** Inserts or refreshes `h`, evicting the least recently used head if need be. */
  function Put(known: seq<Hash>, h: Hash): seq<Hash> {
    Take([h] + Without(known, h), KNOWN_LEAVES_CACHE_SIZE)
  }

  // ---- Listeners ----

  /** The listeners whose requester is still there; only those can be answered. */
  function Live(ids: seq<ListenerId>, canceled: set<ListenerId>): seq<ListenerId> {
    if ids == [] then []
    else (if ids[0] in canceled then [] else [ids[0]]) + Live(ids[1..], canceled)
  }

  /** The fate of listeners for `h` that are sent an answer, or dropped, now. */
  function Settle(ids: seq<ListenerId>, h: Hash, fate: Fate, canceled: set<ListenerId>): set<Settled> {
    set id | id in ids :: Settled(id, h, if id in canceled then RequesterGone else fate)
  }

  function SettleHead(st: State, h: Hash, fate: Fate): State {
    if h in st.listeners
    then st.(listeners := st.listeners - {h},
             answers := st.answers + if fate.Answered? then Live(st.listeners[h], st.canceled) else [],
             settled := st.settled + Settle(st.listeners[h], h, fate, st.canceled))
    else st
  }

  function CleanUp(st: State): State {
    st.(listeners := map h | h in st.listeners && Live(st.listeners[h], st.canceled) != []
                       :: Live(st.listeners[h], st.canceled),
        settled := st.settled + (set h, id | h in st.listeners && id in st.listeners[h] && id in st.canceled
                                   :: Settled(id, h, RequesterGone)))
  }

  // ---- Heads ----

  function Activate(sup: Hash -> bool, st: State, h: Hash, parent: Option<Hash>)
    : (State, Option<(Span, LeafStatus)>)
  {
    if !sup(h) then (st, None)
    else
      var st1 := SettleHead(st, h, Answered);
      var span := Span(h, if parent.Some? && parent.value in st1.spans then parent else None);
      (st1.(spans := st1.spans[h := span], known := Put(st1.known, h)),
       Some((span, if h in st1.known then Stale else Fresh)))
  }

  function Deactivate(st: State, h: Hash): State {
    var st1 := SettleHead(st, h, HeadDeactivated);
    st1.(spans := st1.spans - {h})
  }

  function DeactivateAll(st: State, hs: seq<Hash>): State {
    if hs == [] then st else Deactivate(DeactivateAll(st, hs[..|hs| - 1]), hs[|hs| - 1])
  }

  function Announce(st: State, u: Update): State {
    if u.activated.None? && u.deactivated == [] then st
    else st.(signals := st.signals + [ActiveLeaves(u)])
  }

  function LeafOf(h: Hash, number: nat, a: Option<(Span, LeafStatus)>): Option<ActivatedLeaf> {
    match a
    case None => None
    case Some((span, status)) => Some(ActivatedLeaf(h, number, status, span))
  }

  // ---- Events ----

  /** One of the leaves the overseer is started with. */
  function StartLeaf(sup: Hash -> bool, st: State, leaf: (Hash, nat)): State {
    var (h, number) := leaf;
    var (st1, a) := Activate(sup, st.(active := st.active[h := number]), h, None);
    Announce(st1, Update(LeafOf(h, number, a), []))
  }

  function Start(sup: Hash -> bool, leaves: seq<(Hash, nat)>): State {
    if leaves == [] then INITIAL
    else StartLeaf(sup, Start(sup, leaves[..|leaves| - 1]), leaves[|leaves| - 1])
  }

  function DropParent(st: State, parent: Hash): State {
    if parent in st.active then Deactivate(st.(active := st.active - {parent}), parent) else st
  }

  function ImportBlock(sup: Hash -> bool, st: State, b: BlockInfo): State {
    if b.hash in st.active then st
    else
      var (st1, a) := Activate(sup, st.(active := st.active[b.hash := b.number]), b.hash, Some(b.parentHash));
      Announce(CleanUp(DropParent(st1, b.parentHash)),
               Update(LeafOf(b.hash, b.number, a), if b.parentHash in st1.active then [b.parentHash] else []))
  }

  /** The orphaned leaves a finalised block prunes; never the block itself. */
  function Pruned(st: State, b: BlockInfo): set<Hash> {
    set h | h in st.active && st.active[h] <= b.number && h != b.hash
  }

  /** `order` visits each element of `hs` exactly once. */
  ghost predicate Visits(order: seq<Hash>, hs: set<Hash>) {
    && (forall i | 0 <= i < |order| :: order[i] in hs)
    && (forall i, j | 0 <= i < j < |order| :: order[i] != order[j])
    && (forall h | h in hs :: h in order)
  }

  /** Finalisation of `b`, with the pruned leaves visited in the given order. */
  function FinalizeBlock(st: State, b: BlockInfo, order: seq<Hash>): State {
    var st1 := DeactivateAll(st.(active := st.active - Pruned(st, b)), order);
    Announce(st1.(signals := st1.signals + [BlockFinalized(b.hash, b.number)]), Update(None, order))
  }

  function Wait(st: State, h: Hash, id: ListenerId): State {
    var st1 := st.(asked := st.asked[id := h]);
    if h in st.known
    then st1.(answers := st1.answers + Live([id], st.canceled),
              settled := st1.settled + Settle([id], h, Answered, st.canceled))
    else
      var ids := if h in st.listeners then st.listeners[h] else [];
      st1.(listeners := st.listeners[h := ids + [id]])
  }

  function Cancel(st: State, id: ListenerId): State {
    st.(canceled := st.canceled + {id})
  }

  datatype Event =
    | Import(block: BlockInfo)
    | Finalize(finalized: BlockInfo, order: seq<Hash>)
    | Ask(hash: Hash, listener: ListenerId)
    | GiveUp(listener: ListenerId)

  /** Pruned leaves are visited in some order, and a response channel is used only once. */
  ghost predicate Enabled(st: State, e: Event) {
    match e
    case Import(_) => true
    case Finalize(b, order) => Visits(order, Pruned(st, b))
    case Ask(_, id) => id !in st.asked
    case GiveUp(_) => true
  }

  function Apply(sup: Hash -> bool, st: State, e: Event): State {
    match e
    case Import(b) => ImportBlock(sup, st, b)
    case Finalize(b, order) => FinalizeBlock(st, b, order)
    case Ask(h, id) => Wait(st, h, id)
    case GiveUp(id) => Cancel(st, id)
  }

  function Run(sup: Hash -> bool, leaves: seq<(Hash, nat)>, evs: seq<Event>): State {
    if evs == [] then Start(sup, leaves)
    else Apply(sup, Run(sup, leaves, evs[..|evs| - 1]), evs[|evs| - 1])
  }

  /** A run in which every event was possible when it happened. */
  ghost predicate Possible(sup: Hash -> bool, leaves: seq<(Hash, nat)>, evs: seq<Event>) {
    forall i | 0 <= i < |evs| :: Enabled(Run(sup, leaves, evs[..i]), evs[i])
  }

  lemma PossiblePrefix(sup: Hash -> bool, leaves: seq<(Hash, nat)>, evs: seq<Event>)
    requires evs != [] && Possible(sup, leaves, evs)
    ensures Possible(sup, leaves, evs[..|evs| - 1])
    ensures Enabled(Run(sup, leaves, evs[..|evs| - 1]), evs[|evs| - 1])
  {
    var before := evs[..|evs| - 1];
    forall i | 0 <= i < |before| ensures Enabled(Run(sup, leaves, before[..i]), before[i]) {
      assert before[..i] == evs[..i] && before[i] == evs[i];
    }
  }
}

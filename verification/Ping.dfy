/**
 The ping pallet: at the end of each block every target is pinged under a fresh sequence
 number, and a pong settles the ping of its number.
 */
module Ping {
  import opened Bytes
  import opened Options

  datatype ParaId = ParaId(index: nat)
  datatype Payload = Payload(bits: nat)
  type Target = (ParaId, Payload)

  datatype Event =
    | PingSent(para: ParaId, sequence: u32, payload: Payload, block: nat)
    | ErrorSendingPing(para: ParaId, sequence: u32, payload: Payload)
    | Ponged(para: ParaId, sequence: u32, payload: Payload, delay: nat, block: nat)
    | UnknownPong(para: ParaId, sequence: u32, payload: Payload)

  datatype State = State(
    block: nat,
    targets: seq<Target>,
    pingCount: u32,
    pings: map<u32, nat>,
    events: seq<Event>,
    /** How many pings were sent under a number that was still outstanding. */
    overwritten: nat)

  const INITIAL := State(0, [], 0, map[], [], 0)

  /** One target pinged at the current block; `sent` is the transport's answer. */
  function PingOne(st: State, target: Target, sent: bool): State {
    var s := Increment(st.pingCount);
    var st1 := st.(pingCount := s);
    if sent
    then st1.(pings := st1.pings[s := st.block],
              events := st1.events + [PingSent(target.0, s, target.1, st.block)],
              overwritten := st.overwritten + if s in st.pings then 1 else 0)
    else st1.(events := st1.events + [ErrorSendingPing(target.0, s, target.1)])
  }

  /** All targets pinged in order. */
  function PingAll(st: State, targets: seq<Target>, sent: nat -> bool): State {
    if targets == [] then st
    else PingOne(PingAll(st, targets[..|targets| - 1], sent), targets[|targets| - 1], sent(|targets| - 1))
  }

  function Pong(st: State, para: ParaId, s: u32, payload: Payload): State {
    if s in st.pings
    then st.(pings := st.pings - {s},
             events := st.events + [Ponged(para, s, payload,
                                           if st.block >= st.pings[s] then st.block - st.pings[s] else 0,
                                           st.block)])
    else st.(events := st.events + [UnknownPong(para, s, payload)])
  }

  /** The position of the first target of `para`, if any. */
  function Position(targets: seq<Target>, para: ParaId): Option<nat> {
    if targets == [] then None
    else if targets[0].0 == para then Some(0)
    else match Position(targets[1..], para) case None => None case Some(i) => Some(i + 1)
  }

  /** Removes the first target of `para` by moving the last target into its place. */
  function StopFirst(targets: seq<Target>, para: ParaId): seq<Target> {
    match Position(targets, para)
    case None => targets
    case Some(i) =>
      PositionFound(targets, para);
      SwapRemove(targets, i)
  }

  function SwapRemove(targets: seq<Target>, i: nat): seq<Target>
    requires i < |targets|
  {
    var last := targets[|targets| - 1];
    if i == |targets| - 1 then targets[..i] else targets[..|targets| - 1][i := last]
  }

  lemma {:induction false} PositionFound(targets: seq<Target>, para: ParaId)
    ensures var p := Position(targets, para);
      && (p.None? ==> forall t | t in targets :: t.0 != para)
      && (p.Some? ==> p.value < |targets| && targets[p.value].0 == para
                      && forall j | 0 <= j < p.value :: targets[j].0 != para)
  {
    if targets != [] {
      PositionFound(targets[1..], para);
      assert targets == [targets[0]] + targets[1..];
    }
  }

  /** Exactly one occurrence goes, whatever the new order. */
  lemma SwapRemoved(targets: seq<Target>, i: nat)
    requires i < |targets|
    ensures multiset(SwapRemove(targets, i)) == multiset(targets) - multiset{targets[i]}
  {
    var front, last := targets[..|targets| - 1], targets[|targets| - 1];
    assert targets == front + [last];
    if i < |front| {
      assert multiset(front[i := last]) == multiset(front) - multiset{front[i]} + multiset{last};
    }
  }

  /** Keeps the targets of other chains. */
  function Others(targets: seq<Target>, para: ParaId): seq<Target> {
    if targets == [] then []
    else
      var last := targets[|targets| - 1];
      Others(targets[..|targets| - 1], para) + if last.0 != para then [last] else []
  }

  lemma SwapRemovedAt(targets: seq<Target>, i: nat)
    requires i < |targets|
    ensures var r := SwapRemove(targets, i);
      && |r| == |targets| - 1
      && (forall j | 0 <= j < |r| :: r[j] == if j == i then targets[|targets| - 1] else targets[j])
  {
  }

  /** `r` is `targets` without its first target of `para`, whose place the last target took. */
  ghost predicate Stopped(targets: seq<Target>, para: ParaId, i: nat, r: seq<Target>) {
    && i < |targets| && targets[i].0 == para
    && (forall j | 0 <= j < i :: targets[j].0 != para)
    && |r| == |targets| - 1
    && (forall j | 0 <= j < |r| :: r[j] == if j == i then targets[|targets| - 1] else targets[j])
    && multiset(r) == multiset(targets) - multiset{targets[i]}
  }

  /** Stopping a chain removes its first target and no other; it does nothing without one. */
  lemma StopFirstExactly(targets: seq<Target>, para: ParaId)
    ensures if exists t :: t in targets && t.0 == para
            then exists i :: Stopped(targets, para, i, StopFirst(targets, para))
            else StopFirst(targets, para) == targets
  {
    hide SwapRemove, Position;
    PositionFound(targets, para);
    var p := Position(targets, para);
    if p.Some? {
      SwapRemoved(targets, p.value);
      SwapRemovedAt(targets, p.value);
      assert Stopped(targets, para, p.value, StopFirst(targets, para));
    }
  }

  /** Stopping all targets of a chain removes those and no others. */
  lemma {:induction false} OthersExactly(targets: seq<Target>, para: ParaId, t: Target)
    ensures multiset(Others(targets, para))[t] == if t.0 == para then 0 else multiset(targets)[t]
  {
    if targets != [] {
      var front, last := targets[..|targets| - 1], targets[|targets| - 1];
      assert targets == front + [last];
      OthersExactly(front, para, t);
    }
  }

  /** The targets that stay keep their order. */
  lemma {:induction false} OthersAppend(xs: seq<Target>, ys: seq<Target>, para: ParaId)
    ensures Others(xs + ys, para) == Others(xs, para) + Others(ys, para)
    decreases |ys|
  {
    if ys == [] {
      assert xs + ys == xs;
    } else {
      assert (xs + ys)[..|xs + ys| - 1] == xs + ys[..|ys| - 1];
      OthersAppend(xs, ys[..|ys| - 1], para);
    }
  }

  datatype Action =
    | NextBlock
    | EndBlock(sent: nat -> bool)
    | ReceivePong(para: ParaId, sequence: u32, payload: Payload)
    | Start(target: Target)
    | StartMany(target: Target, count: u32)
    | Stop(para: ParaId)
    | StopAll(maybe: Option<ParaId>)

  function Apply(st: State, a: Action): State {
    match a
    case NextBlock => st.(block := st.block + 1)
    case EndBlock(sent) => PingAll(st, st.targets, sent)
    case ReceivePong(para, s, payload) => Pong(st, para, s, payload)
    case Start(t) => st.(targets := st.targets + [t])
    case StartMany(t, n) => st.(targets := st.targets + seq(n, _ => t))
    case Stop(para) => st.(targets := StopFirst(st.targets, para))
    case StopAll(maybe) => st.(targets := if maybe.Some? then Others(st.targets, maybe.value) else [])
  }

  function Run(acts: seq<Action>): State {
    if acts == [] then INITIAL else Apply(Run(acts[..|acts| - 1]), acts[|acts| - 1])
  }

  // ---- Counting ----

  /** How many pings were attempted, sent or not. */
  function Attempts(events: seq<Event>): nat {
    if events == [] then 0
    else
      var e := events[|events| - 1];
      Attempts(events[..|events| - 1]) + if e.PingSent? || e.ErrorSendingPing? then 1 else 0
  }

  /** How many pings were sent under number `s`, or under any number if `s` is `None`. */
  function Sent(events: seq<Event>, s: Option<u32>): nat {
    if events == [] then 0
    else
      var e := events[|events| - 1];
      Sent(events[..|events| - 1], s) + if e.PingSent? && (s.Some? ==> e.sequence == s.value) then 1 else 0
  }

  function Answered(events: seq<Event>, s: Option<u32>): nat {
    if events == [] then 0
    else
      var e := events[|events| - 1];
      Answered(events[..|events| - 1], s) + if e.Ponged? && (s.Some? ==> e.sequence == s.value) then 1 else 0
  }

  lemma CountsOneMore(events: seq<Event>, e: Event, s: Option<u32>)
    ensures Attempts(events + [e]) == Attempts(events) + if e.PingSent? || e.ErrorSendingPing? then 1 else 0
    ensures Sent(events + [e], s) ==
            Sent(events, s) + if e.PingSent? && (s.Some? ==> e.sequence == s.value) then 1 else 0
    ensures Answered(events + [e], s) ==
            Answered(events, s) + if e.Ponged? && (s.Some? ==> e.sequence == s.value) then 1 else 0
  {
  }

  /** Each number was sent at most once, and is either outstanding or answered once. */
  ghost predicate Settles(st: State, s: u32) {
    && Sent(st.events, Some(s)) == Answered(st.events, Some(s)) + (if s in st.pings then 1 else 0)
    && Sent(st.events, Some(s)) <= (if 1 <= s <= st.pingCount then 1 else 0)
  }

  ghost predicate SentAt(events: seq<Event>, s: u32, block: nat) {
    exists para, payload :: PingSent(para, s, payload, block) in events
  }

  ghost predicate Conserved(st: State) {
    && st.pingCount == Attempts(st.events)
    && st.overwritten == 0
    && Sent(st.events, None) == |st.pings| + Answered(st.events, None)
    && (forall s :: Settles(st, s))
    && (forall s | s in st.pings :: st.pings[s] <= st.block && SentAt(st.events, s, st.pings[s]))
    && (forall e | e in st.events && e.Ponged? ::
          e.delay <= e.block && SentAt(st.events, e.sequence, e.block - e.delay))
  }

  lemma SentAtOneMore(events: seq<Event>, e: Event, s: u32, block: nat)
    requires SentAt(events, s, block)
    ensures SentAt(events + [e], s, block)
  {
  }

  /** A ping under a fresh number; fewer than 2^32 were attempted. */
  lemma PingOneConserves(st: State, t: Target, sent: bool)
    requires Conserved(st) && Attempts(st.events) + 1 < WRAP
    ensures Conserved(PingOne(st, t, sent))
    ensures Attempts(PingOne(st, t, sent).events) == Attempts(st.events) + 1
  {
    hide Sent, Answered, Attempts, SentAt;
    var st' := PingOne(st, t, sent);
    var n := st'.pingCount;
    assert n == st.pingCount + 1;
    var e := if sent then PingSent(t.0, n, t.1, st.block) else ErrorSendingPing(t.0, n, t.1);
    assert st'.events == st.events + [e];
    CountsOneMore(st.events, e, None);
    assert Settles(st, n) && n !in st.pings;
    forall s ensures Settles(st', s) {
      assert Settles(st, s);
      CountsOneMore(st.events, e, Some(s));
    }
    assert |st'.pings| == |st.pings| + if sent then 1 else 0;
    PingOneDated(st, st', e);
  }

  lemma PingOneDated(st: State, st': State, e: Event)
    requires Conserved(st) && st'.events == st.events + [e] && st'.block == st.block
    requires e.PingSent? || e.ErrorSendingPing?
    requires st'.pings == if e.PingSent? then st.pings[e.sequence := st.block] else st.pings
    requires e.PingSent? ==> e.block == st.block
    ensures forall s | s in st'.pings :: st'.pings[s] <= st'.block && SentAt(st'.events, s, st'.pings[s])
    ensures forall x | x in st'.events && x.Ponged? ::
      x.delay <= x.block && SentAt(st'.events, x.sequence, x.block - x.delay)
  {
  }

  lemma {:induction false} PingAllConserves(st: State, targets: seq<Target>, sent: nat -> bool)
    requires Conserved(st) && Attempts(st.events) + |targets| < WRAP
    ensures Conserved(PingAll(st, targets, sent))
    ensures Attempts(PingAll(st, targets, sent).events) == Attempts(st.events) + |targets|
  {
    hide Conserved, PingOne, Attempts;
    if targets != [] {
      PingAllConserves(st, targets[..|targets| - 1], sent);
      PingOneConserves(PingAll(st, targets[..|targets| - 1], sent), targets[|targets| - 1], sent(|targets| - 1));
    }
  }

  /** However many wrap, each target pinged is one attempt. */
  lemma {:induction false} PingAllAttempts(st: State, targets: seq<Target>, sent: nat -> bool)
    ensures Attempts(PingAll(st, targets, sent).events) == Attempts(st.events) + |targets|
  {
    if targets != [] {
      var st1, t := PingAll(st, targets[..|targets| - 1], sent), targets[|targets| - 1];
      PingAllAttempts(st, targets[..|targets| - 1], sent);
      var s := Increment(st1.pingCount);
      CountsOneMore(st1.events, PingSent(t.0, s, t.1, st1.block), None);
      CountsOneMore(st1.events, ErrorSendingPing(t.0, s, t.1), None);
    }
  }

  lemma PongDated(st: State, st': State, e: Event)
    requires Conserved(st) && st'.events == st.events + [e] && st'.block == st.block
    requires e.Ponged? || e.UnknownPong?
    requires st'.pings == if e.Ponged? then st.pings - {e.sequence} else st.pings
    requires e.Ponged? ==>
      e.sequence in st.pings && e.block == st.block && e.delay == st.block - st.pings[e.sequence]
    ensures forall s | s in st'.pings :: st'.pings[s] <= st'.block && SentAt(st'.events, s, st'.pings[s])
    ensures forall x | x in st'.events && x.Ponged? ::
      x.delay <= x.block && SentAt(st'.events, x.sequence, x.block - x.delay)
  {
    hide Sent, Answered, Attempts, SentAt, Settles;
    forall s | s in st.pings ensures SentAt(st'.events, s, st.pings[s]) {
      SentAtOneMore(st.events, e, s, st.pings[s]);
    }
    forall x | x in st'.events && x.Ponged?
      ensures x.delay <= x.block && SentAt(st'.events, x.sequence, x.block - x.delay)
    {
      if x in st.events {
        SentAtOneMore(st.events, e, x.sequence, x.block - x.delay);
      }
    }
  }

  lemma PongConserves(st: State, para: ParaId, s: u32, payload: Payload)
    requires Conserved(st)
    ensures Conserved(Pong(st, para, s, payload))
    ensures Attempts(Pong(st, para, s, payload).events) == Attempts(st.events)
  {
    hide Sent, Answered, Attempts, SentAt;
    var st' := Pong(st, para, s, payload);
    var e := if s in st.pings then Ponged(para, s, payload, st.block - st.pings[s], st.block)
             else UnknownPong(para, s, payload);
    assert st'.events == st.events + [e];
    CountsOneMore(st.events, e, None);
    forall x ensures Settles(st', x) {
      assert Settles(st, x);
      CountsOneMore(st.events, e, Some(x));
    }
    assert |st'.pings| == |st.pings| - if s in st.pings then 1 else 0 by {
      if s in st.pings {
        assert st.pings.Keys == st'.pings.Keys + {s};
      }
    }
    PongDated(st, st', e);
  }

  lemma AttemptsGrow(st: State, a: Action)
    ensures Attempts(st.events) <= Attempts(Apply(st, a).events)
  {
    hide Attempts, PingAll;
    match a {
      case EndBlock(sent) => PingAllAttempts(st, st.targets, sent);
      case ReceivePong(para, s, payload) =>
        CountsOneMore(st.events, UnknownPong(para, s, payload), None);
        if s in st.pings {
          CountsOneMore(st.events, Pong(st, para, s, payload).events[|st.events|], None);
        }
      case _ =>
    }
  }

  lemma ApplyConserves(st: State, a: Action)
    requires Conserved(st) && Attempts(Apply(st, a).events) < WRAP
    ensures Conserved(Apply(st, a))
  {
    hide Sent, Answered, Attempts, SentAt, PingAll, Pong;
    match a {
      case EndBlock(sent) =>
        PingAllAttempts(st, st.targets, sent);
        PingAllConserves(st, st.targets, sent);
      case ReceivePong(para, s, payload) => PongConserves(st, para, s, payload);
      case _ =>
        forall s ensures Settles(Apply(st, a), s) {
          assert Settles(st, s);
        }
    }
  }

  /**
   Below 2^32 attempts: pings sent are those outstanding plus those answered, number by
   number and in total, and every reported delay is the age of the ping it answers.
   */
  lemma {:induction false} RunConserves(acts: seq<Action>)
    requires Attempts(Run(acts).events) < WRAP
    ensures Conserved(Run(acts))
  {
    hide Apply;
    if acts != [] {
      AttemptsGrow(Run(acts[..|acts| - 1]), acts[|acts| - 1]);
      RunConserves(acts[..|acts| - 1]);
      ApplyConserves(Run(acts[..|acts| - 1]), acts[|acts| - 1]);
    }
  }

  // ---- Without any bound ----

  ghost predicate Totals(st: State) {
    Sent(st.events, None) == |st.pings| + Answered(st.events, None) + st.overwritten
  }

  lemma PingOneTotals(st: State, t: Target, sent: bool)
    requires Totals(st)
    ensures Totals(PingOne(st, t, sent))
  {
  }

  lemma {:induction false} PingAllTotals(st: State, targets: seq<Target>, sent: nat -> bool)
    requires Totals(st)
    ensures Totals(PingAll(st, targets, sent))
  {
    hide Totals, PingOne;
    if targets != [] {
      PingAllTotals(st, targets[..|targets| - 1], sent);
      PingOneTotals(PingAll(st, targets[..|targets| - 1], sent), targets[|targets| - 1], sent(|targets| - 1));
    }
  }

  lemma PongTotals(st: State, para: ParaId, s: u32, payload: Payload)
    requires Totals(st)
    ensures Totals(Pong(st, para, s, payload))
  {
  }

  lemma {:induction false} RunTotals(acts: seq<Action>)
    ensures Totals(Run(acts))
  {
    hide PingAll, Pong;
    if acts != [] {
      var st, a := Run(acts[..|acts| - 1]), acts[|acts| - 1];
      RunTotals(acts[..|acts| - 1]);
      match a {
        case EndBlock(sent) => PingAllTotals(st, st.targets, sent);
        case ReceivePong(para, s, payload) => PongTotals(st, para, s, payload);
        case _ =>
      }
    }
  }

  // ---- Which runs reuse a number too early ----

  predicate Sends(e: Event, s: u32) {
    e.PingSent? && e.sequence == s
  }

  predicate Answers(e: Event, s: u32) {
    e.Ponged? && e.sequence == s
  }

  /** A ping of number `s` was sent and not answered since. */
  ghost predicate Outstanding(events: seq<Event>, s: u32) {
    exists i :: 0 <= i < |events| && Sends(events[i], s) && forall k | i < k < |events| :: !Answers(events[k], s)
  }

  /** Between two pings of one number there is always an answer to it. */
  ghost predicate NoEarlyReuse(events: seq<Event>) {
    forall i, j | 0 <= i < j < |events| && events[i].PingSent? && Sends(events[j], events[i].sequence) ::
      exists k :: i < k < j && Answers(events[k], events[i].sequence)
  }

  lemma OutstandingLast(events: seq<Event>, e: Event, s: u32)
    ensures Outstanding(events + [e], s) <==> Sends(e, s) || (Outstanding(events, s) && !Answers(e, s))
  {
    var all := events + [e];
    assert all[|events|] == e && forall i | 0 <= i < |events| :: all[i] == events[i];
    if Outstanding(events, s) && !Answers(e, s) {
      var i :| 0 <= i < |events| && Sends(events[i], s) && forall k | i < k < |events| :: !Answers(events[k], s);
      assert Sends(all[i], s);
    }
    if Outstanding(all, s) && !Sends(e, s) {
      var i :| 0 <= i < |all| && Sends(all[i], s) && forall k | i < k < |all| :: !Answers(all[k], s);
      assert Sends(events[i], s) && !Answers(all[|events|], s);
      assert forall k | i < k < |events| :: !Answers(events[k], s) by {
        assert forall k | i < k < |events| :: all[k] == events[k];
      }
    }
  }

  lemma NoEarlyReuseLast(events: seq<Event>, e: Event)
    ensures NoEarlyReuse(events + [e]) <==>
            NoEarlyReuse(events) && (e.PingSent? ==> !Outstanding(events, e.sequence))
  {
    if NoEarlyReuse(events + [e]) {
      ReuseSeenBefore(events, e);
    }
    if NoEarlyReuse(events) && (e.PingSent? ==> !Outstanding(events, e.sequence)) {
      NoReuseAdded(events, e);
    }
  }

  lemma ReuseSeenBefore(events: seq<Event>, e: Event)
    requires NoEarlyReuse(events + [e])
    ensures NoEarlyReuse(events) && (e.PingSent? ==> !Outstanding(events, e.sequence))
  {
    var all := events + [e];
    forall i, j | 0 <= i < j < |events| && events[i].PingSent? && Sends(events[j], events[i].sequence)
      ensures exists k :: i < k < j && Answers(events[k], events[i].sequence)
    {
      assert all[i] == events[i] && all[j] == events[j];
      var k :| i < k < j && Answers(all[k], all[i].sequence);
      assert Answers(events[k], events[i].sequence);
    }
    if e.PingSent? {
      assert all[|events|] == e && Sends(e, e.sequence);
      forall i | 0 <= i < |events| && Sends(events[i], e.sequence)
        ensures exists k :: i < k < |events| && Answers(events[k], e.sequence)
      {
        assert all[i] == events[i];
        var k :| i < k < |events| && Answers(all[k], all[i].sequence);
        assert all[k] == events[k];
      }
    }
  }

  lemma NoReuseAdded(events: seq<Event>, e: Event)
    requires NoEarlyReuse(events) && (e.PingSent? ==> !Outstanding(events, e.sequence))
    ensures NoEarlyReuse(events + [e])
  {
    var all := events + [e];
    forall i, j | 0 <= i < j < |all| && all[i].PingSent? && Sends(all[j], all[i].sequence)
      ensures exists k :: i < k < j && Answers(all[k], all[i].sequence)
    {
      assert all[i] == events[i] && Sends(events[i], all[i].sequence);
      if j < |events| {
        assert all[j] == events[j];
        var k :| i < k < j && Answers(events[k], events[i].sequence);
        assert all[k] == events[k];
      } else {
        var k :| i < k < |events| && Answers(events[k], events[i].sequence);
        assert all[k] == events[k];
      }
    }
  }

  /** The stored pings are the outstanding ones, and overwriting one is reusing its number early. */
  ghost predicate Tracks(st: State) {
    && (forall s :: s in st.pings <==> Outstanding(st.events, s))
    && (st.overwritten == 0 <==> NoEarlyReuse(st.events))
  }

  lemma OneEventTracks(st: State, st': State, e: Event)
    requires Tracks(st) && st'.events == st.events + [e]
    requires forall s :: s in st'.pings <==> Sends(e, s) || (s in st.pings && !Answers(e, s))
    requires st'.overwritten == st.overwritten + if e.PingSent? && e.sequence in st.pings then 1 else 0
    ensures Tracks(st')
  {
    hide Outstanding, NoEarlyReuse;
    NoEarlyReuseLast(st.events, e);
    forall s ensures s in st'.pings <==> Outstanding(st'.events, s) {
      OutstandingLast(st.events, e, s);
    }
  }

  lemma PingOneTracks(st: State, t: Target, sent: bool)
    requires Tracks(st)
    ensures Tracks(PingOne(st, t, sent))
  {
    hide Tracks;
    var st' := PingOne(st, t, sent);
    OneEventTracks(st, st', st'.events[|st.events|]);
  }

  lemma {:induction false} PingAllTracks(st: State, targets: seq<Target>, sent: nat -> bool)
    requires Tracks(st)
    ensures Tracks(PingAll(st, targets, sent))
  {
    hide Tracks, PingOne;
    if targets != [] {
      PingAllTracks(st, targets[..|targets| - 1], sent);
      PingOneTracks(PingAll(st, targets[..|targets| - 1], sent), targets[|targets| - 1], sent(|targets| - 1));
    }
  }

  lemma PongTracks(st: State, para: ParaId, s: u32, payload: Payload)
    requires Tracks(st)
    ensures Tracks(Pong(st, para, s, payload))
  {
    hide Tracks;
    var st' := Pong(st, para, s, payload);
    OneEventTracks(st, st', st'.events[|st.events|]);
  }

  lemma {:induction false} RunTracks(acts: seq<Action>)
    ensures Tracks(Run(acts))
  {
    hide PingAll, Pong, Outstanding;
    if acts == [] {
      NothingOutstanding();
    } else {
      var st, a := Run(acts[..|acts| - 1]), acts[|acts| - 1];
      RunTracks(acts[..|acts| - 1]);
      match a {
        case EndBlock(sent) => PingAllTracks(st, st.targets, sent);
        case ReceivePong(para, s, payload) => PongTracks(st, para, s, payload);
        case _ => assert Apply(st, a).events == st.events && Apply(st, a).pings == st.pings;
      }
    }
  }

  lemma NothingOutstanding()
    ensures forall s :: !Outstanding([], s)
  {
  }

  /** Sent pings are outstanding or answered exactly as long as no number is reused too early. */
  lemma {:induction false} PingsConservedExactly(acts: seq<Action>)
    ensures var st := Run(acts);
      Sent(st.events, None) == |st.pings| + Answered(st.events, None) <==> NoEarlyReuse(st.events)
  {
    RunTotals(acts);
    RunTracks(acts);
  }

  /** One target, pinged successfully in `n` blocks, and no pong. */
  function Unanswered(t: Target, sent: nat -> bool, n: nat): seq<Action> {
    if n == 0 then [Start(t)] else Unanswered(t, sent, n - 1) + [EndBlock(sent)]
  }

  lemma {:induction false} UnansweredCounts(t: Target, sent: nat -> bool, n: nat)
    requires sent(0)
    ensures var st := Run(Unanswered(t, sent, n));
      st.targets == [t] && Sent(st.events, None) == n && Answered(st.events, None) == 0
  {
    hide Sent, Answered, Apply;
    if n == 0 {
      OnlyStarted(t);
    } else {
      var before := Unanswered(t, sent, n - 1);
      UnansweredCounts(t, sent, n - 1);
      assert (before + [EndBlock(sent)])[..|before|] == before;
      OnePingCounts(Run(before), t, sent);
    }
  }

  lemma OnlyStarted(t: Target)
    ensures Run([Start(t)]) == INITIAL.(targets := [t])
    ensures Sent([], None) == Answered([], None) == 0
  {
    assert [Start(t)][..0] == [] && Run([]) == INITIAL;
    assert [] + [t] == [t];
  }

  lemma OnePingCounts(st: State, t: Target, sent: nat -> bool)
    requires st.targets == [t] && sent(0)
    ensures var st' := Apply(st, EndBlock(sent));
      && st'.targets == st.targets
      && Sent(st'.events, None) == Sent(st.events, None) + 1
      && Answered(st'.events, None) == Answered(st.events, None)
  {
    hide Sent, Answered;
    assert [t][..0] == [] && PingAll(st, [], sent) == st && PingAll(st, [t], sent) == PingOne(st, t, true);
    CountsOneMore(st.events, PingSent(t.0, Increment(st.pingCount), t.1, st.block), None);
  }

  lemma {:induction false} BoundedSize(s: set<u32>, n: nat)
    requires forall x | x in s :: x < n
    ensures |s| <= n
  {
    if n == 0 {
      assert s == {};
    } else if n - 1 in s {
      var m: u32 := n - 1;
      BoundedSize(s - {m}, n - 1);
    } else {
      BoundedSize(s, n - 1);
    }
  }

  /** After more than 2^32 unanswered pings some number has been reused and a ping is lost. */
  lemma ReuseLosesPing(t: Target, sent: nat -> bool, n: nat)
    requires sent(0) && n > WRAP
    ensures var st := Run(Unanswered(t, sent, n));
      Sent(st.events, None) > |st.pings| + Answered(st.events, None) && !NoEarlyReuse(st.events)
  {
    var acts := Unanswered(t, sent, n);
    UnansweredCounts(t, sent, n);
    PingsConservedExactly(acts);
    BoundedSize(Run(acts).pings.Keys, WRAP);
  }

  // ---- What is sent and reported, exactly ----

  /** The event of the `k`-th ping of a block that began with the given count. */
  function PingEvent(count: u32, block: nat, t: Target, k: nat, ok: bool): Event {
    var s := (count + k + 1) % WRAP;
    if ok then PingSent(t.0, s, t.1, block) else ErrorSendingPing(t.0, s, t.1)
  }

  lemma WrapsOn(count: u32, k: nat)
    ensures Increment((count + k) % WRAP) == (count + k + 1) % WRAP
  {
  }

  lemma PingOneExactly(st: State, t: Target, ok: bool, count: u32, k: nat)
    requires st.pingCount == (count + k) % WRAP
    ensures var st' := PingOne(st, t, ok);
      && st'.block == st.block && st'.targets == st.targets
      && st'.pingCount == (count + k + 1) % WRAP
      && st'.events == st.events + [PingEvent(count, st.block, t, k, ok)]
  {
    WrapsOn(count, k);
  }

  /** Each target is pinged once, in order, with its own payload, under consecutive numbers. */
  lemma {:induction false} PingAllExactly(st: State, targets: seq<Target>, sent: nat -> bool)
    ensures var st' := PingAll(st, targets, sent);
      && st'.block == st.block && st'.targets == st.targets
      && st'.pingCount == (st.pingCount + |targets|) % WRAP
      && |st'.events| == |st.events| + |targets| && st'.events[..|st.events|] == st.events
      && (forall k | 0 <= k < |targets| ::
            st'.events[|st.events| + k] == PingEvent(st.pingCount, st.block, targets[k], k, sent(k)))
  {
    hide PingOne, PingEvent;
    if targets != [] {
      var front, n := targets[..|targets| - 1], |targets| - 1;
      PingAllExactly(st, front, sent);
      PingOneExactly(PingAll(st, front, sent), targets[n], sent(n), st.pingCount, n);
    }
  }

  /** The block of the latest ping sent under `s`. */
  function LatestSent(events: seq<Event>, s: u32): Option<nat> {
    if events == [] then None
    else if Sends(events[|events| - 1], s) then Some(events[|events| - 1].block)
    else LatestSent(events[..|events| - 1], s)
  }

  lemma LatestSentLast(events: seq<Event>, e: Event, s: u32)
    ensures LatestSent(events + [e], s) == if Sends(e, s) then Some(e.block) else LatestSent(events, s)
  {
    assert (events + [e])[..|events|] == events;
  }

  /** An outstanding ping is stored with the block it was last sent at. */
  ghost predicate Dated(st: State) {
    forall s | s in st.pings :: LatestSent(st.events, s) == Some(st.pings[s]) && st.pings[s] <= st.block
  }

  lemma PingOneDates(st: State, t: Target, sent: bool)
    requires Dated(st)
    ensures Dated(PingOne(st, t, sent))
  {
    hide LatestSent;
    var st' := PingOne(st, t, sent);
    forall s | s in st'.pings
      ensures LatestSent(st'.events, s) == Some(st'.pings[s]) && st'.pings[s] <= st'.block
    {
      LatestSentLast(st.events, st'.events[|st.events|], s);
    }
  }

  lemma {:induction false} PingAllDates(st: State, targets: seq<Target>, sent: nat -> bool)
    requires Dated(st)
    ensures Dated(PingAll(st, targets, sent))
  {
    hide Dated, PingOne;
    if targets != [] {
      PingAllDates(st, targets[..|targets| - 1], sent);
      PingOneDates(PingAll(st, targets[..|targets| - 1], sent), targets[|targets| - 1], sent(|targets| - 1));
    }
  }

  lemma PongDates(st: State, para: ParaId, s: u32, payload: Payload)
    requires Dated(st)
    ensures Dated(Pong(st, para, s, payload))
  {
    hide LatestSent;
    var st' := Pong(st, para, s, payload);
    forall x | x in st'.pings
      ensures LatestSent(st'.events, x) == Some(st'.pings[x]) && st'.pings[x] <= st'.block
    {
      LatestSentLast(st.events, st'.events[|st.events|], x);
    }
  }

  lemma {:induction false} RunDated(acts: seq<Action>)
    ensures Dated(Run(acts))
  {
    hide PingAll, Pong, LatestSent;
    if acts != [] {
      var st, a := Run(acts[..|acts| - 1]), acts[|acts| - 1];
      RunDated(acts[..|acts| - 1]);
      match a {
        case EndBlock(sent) => PingAllDates(st, st.targets, sent);
        case ReceivePong(para, s, payload) => PongDates(st, para, s, payload);
        case _ =>
      }
    }
  }

  /**
   In every run a pong reports exactly one event: the age of the latest ping of its number
   if one is outstanding, and an unknown pong otherwise.
   */
  lemma {:induction false} PongExactly(acts: seq<Action>, para: ParaId, s: u32, payload: Payload)
    ensures var st, st' := Run(acts), Run(acts + [ReceivePong(para, s, payload)]);
      && (s in st.pings <==> Outstanding(st.events, s))
      && (Outstanding(st.events, s) ==> LatestSent(st.events, s).Some? && LatestSent(st.events, s).value <= st.block)
      && st'.events == st.events +
         [if Outstanding(st.events, s)
          then Ponged(para, s, payload, st.block - LatestSent(st.events, s).value, st.block)
          else UnknownPong(para, s, payload)]
      && st'.pings == st.pings - {s}
  {
    RunTracks(acts);
    RunDated(acts);
    assert (acts + [ReceivePong(para, s, payload)])[..|acts|] == acts;
    hide Run, Outstanding, LatestSent, NoEarlyReuse;
    if s !in Run(acts).pings {
      assert Run(acts).pings - {s} == Run(acts).pings;
    }
  }

  /** How many blocks have begun. */
  function Blocks(acts: seq<Action>): nat {
    if acts == [] then 0
    else Blocks(acts[..|acts| - 1]) + if acts[|acts| - 1].NextBlock? then 1 else 0
  }

  lemma {:induction false} BlockIsHistory(acts: seq<Action>)
    ensures Run(acts).block == Blocks(acts)
  {
    hide PingAll;
    if acts != [] {
      BlockIsHistory(acts[..|acts| - 1]);
      if acts[|acts| - 1].EndBlock? {
        var st := Run(acts[..|acts| - 1]);
        PingAllExactly(st, st.targets, acts[|acts| - 1].sent);
      }
    }
  }

  /** How each action changes the list of targets. */
  lemma TargetsExactly(st: State, a: Action)
    ensures var ts, ts' := st.targets, Apply(st, a).targets;
      match a
      case Start(t) => ts' == ts + [t]
      case StartMany(t, n) =>
        |ts'| == |ts| + n && ts'[..|ts|] == ts && forall i | |ts| <= i < |ts'| :: ts'[i] == t
      case Stop(para) => ts' == StopFirst(ts, para)
      case StopAll(None) => ts' == []
      case StopAll(Some(para)) => ts' == Others(ts, para)
      case _ => ts' == ts
  {
    hide PingAll;
    if a.EndBlock? {
      PingAllExactly(st, st.targets, a.sent);
    }
  }

  /** The pallet's storage, updated in place. */
  class Pallet {
    var block: nat
    var targets: seq<Target>
    var pingCount: u32
    var pings: map<u32, nat>
    var events: seq<Event>
    ghost var overwritten: nat

    ghost function Contents(): State
      reads this
    {
      State(block, targets, pingCount, pings, events, overwritten)
    }

    constructor ()
      ensures Contents() == INITIAL
    {
      block, targets, pingCount, pings, events, overwritten := 0, [], 0, map[], [], 0;
    }

    method OnFinalize(sent: nat -> bool)
      modifies this`pingCount, this`pings, this`events, this`overwritten
      ensures Contents() == PingAll(old(Contents()), old(targets), sent)
    {
      hide PingOne;
      for i := 0 to |targets|
        invariant Contents() == PingAll(old(Contents()), targets[..i], sent)
      {
        assert targets[..i + 1][..i] == targets[..i];
        SendPing(targets[i], sent(i));
      }
      assert targets[..|targets|] == targets;
    }

    method SendPing(t: Target, ok: bool)
      modifies this`pingCount, this`pings, this`events, this`overwritten
      ensures Contents() == PingOne(old(Contents()), t, ok)
    {
      var (para, payload) := t;
      pingCount := Increment(pingCount);
      if ok {
        overwritten := overwritten + if pingCount in pings then 1 else 0;
        pings := pings[pingCount := block];
        events := events + [PingSent(para, pingCount, payload, block)];
      } else {
        events := events + [ErrorSendingPing(para, pingCount, payload)];
      }
    }

    method OnPong(para: ParaId, s: u32, payload: Payload)
      modifies this`pings, this`events
      ensures Contents() == Pong(old(Contents()), para, s, payload)
    {
      if s in pings {
        var sentAt := pings[s];
        pings := pings - {s};
        events := events + [Ponged(para, s, payload, if block >= sentAt then block - sentAt else 0, block)];
      } else {
        events := events + [UnknownPong(para, s, payload)];
      }
    }

    method AddMany(t: Target, count: u32)
      modifies this`targets
      ensures targets == old(targets) + seq(count, _ => t)
    {
      for i := 0 to count
        invariant targets == old(targets) + seq(i, _ => t)
      {
        targets := targets + [t];
      }
    }

    /** Drops one target of `para`, if there is one. */
    method RemoveOne(para: ParaId)
      modifies this`targets
      ensures targets == StopFirst(old(targets), para)
    {
      PositionFound(targets, para);
      var p := 0;
      while p < |targets| && targets[p].0 != para
        invariant 0 <= p <= |targets|
        invariant forall j | 0 <= j < p :: targets[j].0 != para
      {
        p := p + 1;
      }
      if p < |targets| {
        assert Position(targets, para) == Some(p);
        targets := SwapRemove(targets, p);
      }
    }

    /** Drops all targets of `para`. */
    method RemoveAll(para: ParaId)
      modifies this`targets
      ensures targets == Others(old(targets), para)
    {
      var kept := [];
      for i := 0 to |targets|
        invariant kept == Others(targets[..i], para)
      {
        assert targets[..i + 1][..i] == targets[..i];
        if targets[i].0 != para {
          kept := kept + [targets[i]];
        }
      }
      assert targets[..|targets|] == targets;
      targets := kept;
    }
  }
}

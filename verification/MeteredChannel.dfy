/**
 The metered bounded channel under interleaving. Any number of cloned senders and one
 receiver take atomic steps: bumping a shared counter, or handing a message to or taking
 one from the inner queue. Each sender remembers where it is in `try_send` or `send`.
 */
module MeteredChannel {
  import opened Options

  datatype Message = Message(id: nat)
  datatype SenderId = SenderId(index: nat)

  datatype Place =
    | Idle
    /** `sent` was bumped; the inner `try_send` is next. */
    | Noted(message: Message, waits: bool)
    /** The queue was full; noting the blocked send is next. */
    | Full(message: Message, waits: bool)
    /** The message was refused; taking back the bump is next. */
    | Refused(message: Message, waits: bool, full: bool)
    /** A waiting `send` is about to bump `sent` again. */
    | Retrying(message: Message)
    /** The inner `send` is being awaited. */
    | Waiting(message: Message)
    /** The inner `send` failed; taking back the bump is next. */
    | Failed

  /**
   The senders, the counters and the inner queue, together with a history: what was
   accepted and delivered, and how often some step happened.
   */
  datatype State = State(
    senders: map<SenderId, Place>,
    closed: bool,
    sent: int,
    received: nat,
    blocked: nat,
    fulls: nat,
    queue: seq<Message>,
    accepted: seq<Message>,
    delivered: seq<Message>,
    unnoted: nat,
    endings: nat,
    abandoned: nat)

  function Initial(first: SenderId): State {
    State(map[first := Idle], false, 0, 0, 0, 0, [], [], [], 0, 0, 0)
  }

  datatype Step =
    | Clone(from: SenderId, to: SenderId)
    | DropSender(who: SenderId)
    | Begin(who: SenderId, message: Message, waits: bool)
    | InnerAccepts(who: SenderId)
    | InnerFull(who: SenderId)
    | InnerClosed(who: SenderId)
    | NoteBlocked(who: SenderId)
    | Retract(who: SenderId)
    | NoteAgain(who: SenderId)
    | InnerFails(who: SenderId)
    | Abandon(who: SenderId)
    | CloseReceiver
    | Deliver
    | NoteReceived
    | PollEnd

  /** Whether a sender at this place has bumped `sent` for a message not yet accepted. */
  predicate Counted(p: Place) {
    p.Noted? || p.Full? || p.Refused? || p.Waiting? || p.Failed?
  }

  function At(st: State, who: SenderId): Place {
    if who in st.senders then st.senders[who] else Idle
  }

  function Go(st: State, who: SenderId, p: Place): State {
    st.(senders := st.senders[who := p])
  }

  function Accept(st: State, m: Message): State {
    st.(queue := st.queue + [m], accepted := st.accepted + [m])
  }

  /** Polling yields the end of the stream: nothing is queued and nothing can be any more. */
  predicate Ended(st: State) {
    st.queue == [] && (st.closed || st.senders == map[])
  }

  /** One atomic step; a step that is not possible leaves the state alone. */
  function Next(st: State, s: Step): State {
    match s
    case Clone(from, to) => if from in st.senders && to !in st.senders then Go(st, to, Idle) else st
    case DropSender(who) => if At(st, who).Idle? then st.(senders := st.senders - {who}) else st
    case Begin(who, m, waits) =>
      if who in st.senders && At(st, who).Idle? then Go(st, who, Noted(m, waits)).(sent := st.sent + 1) else st
    case InnerAccepts(who) =>
      var p := At(st, who);
      if !st.closed && (p.Noted? || p.Waiting?) then Accept(Go(st, who, Idle), p.message) else st
    case InnerFull(who) =>
      var p := At(st, who);
      if !st.closed && p.Noted? then Go(st, who, Full(p.message, p.waits)).(fulls := st.fulls + 1) else st
    case InnerClosed(who) =>
      var p := At(st, who);
      if st.closed && p.Noted? then Go(st, who, Refused(p.message, p.waits, false)) else st
    case NoteBlocked(who) =>
      var p := At(st, who);
      if p.Full? then Go(st, who, Refused(p.message, p.waits, true)).(blocked := st.blocked + 1) else st
    case Retract(who) =>
      var p := At(st, who);
      if p.Refused? then
        Go(st, who, if p.full && p.waits then Retrying(p.message) else Idle).(sent := st.sent - 1)
      else if p.Failed? then Go(st, who, Idle).(sent := st.sent - 1)
      else st
    case NoteAgain(who) =>
      var p := At(st, who);
      if p.Retrying? then Go(st, who, Waiting(p.message)).(sent := st.sent + 1) else st
    case InnerFails(who) => if st.closed && At(st, who).Waiting? then Go(st, who, Failed) else st
    case Abandon(who) =>
      if At(st, who).Waiting? then Go(st, who, Idle).(abandoned := st.abandoned + 1) else st
    case CloseReceiver => st.(closed := true)
    case Deliver =>
      if st.queue != []
      then st.(queue := st.queue[1..], delivered := st.delivered + [st.queue[0]], unnoted := st.unnoted + 1)
      else st
    case NoteReceived =>
      if st.unnoted > 0 then st.(unnoted := st.unnoted - 1, received := st.received + 1) else st
    case PollEnd => if Ended(st) then st.(received := st.received + 1, endings := st.endings + 1) else st
  }

  function Run(first: SenderId, steps: seq<Step>): State {
    if steps == [] then Initial(first) else Next(Run(first, steps[..|steps| - 1]), steps[|steps| - 1])
  }

  function InProgress(senders: map<SenderId, Place>): set<SenderId> {
    set i | i in senders && Counted(senders[i])
  }

  function Blocking(senders: map<SenderId, Place>): set<SenderId> {
    set i | i in senders && senders[i].Full?
  }

  /** Accepted messages, messages in the queue, deliveries and refusals are all accounted for. */
  ghost predicate Conserved(st: State) {
    && st.sent == |st.accepted| + |InProgress(st.senders)| + st.abandoned
    && st.accepted == st.delivered + st.queue
    && st.received + st.unnoted == |st.delivered| + st.endings
    && st.fulls == st.blocked + |Blocking(st.senders)|
  }

  lemma Moved(senders: map<SenderId, Place>, who: SenderId, p: Place)
    ensures |InProgress(senders[who := p])| ==
            |InProgress(senders)|
            + (if Counted(p) then 1 else 0)
            - (if who in senders && Counted(senders[who]) then 1 else 0)
  {
    var before, after := InProgress(senders), InProgress(senders[who := p]);
    assert after - {who} == before - {who};
    Except(before, who);
    Except(after, who);
  }

  lemma MovedFull(senders: map<SenderId, Place>, who: SenderId, p: Place)
    ensures |Blocking(senders[who := p])| ==
            |Blocking(senders)|
            + (if p.Full? then 1 else 0)
            - (if who in senders && senders[who].Full? then 1 else 0)
  {
    var before, after := Blocking(senders), Blocking(senders[who := p]);
    assert after - {who} == before - {who};
    Except(before, who);
    Except(after, who);
  }

  lemma Except(s: set<SenderId>, x: SenderId)
    ensures |s| == |s - {x}| + if x in s then 1 else 0
  {
  }

  /** A step of one sender: its place and the counters move together. */
  lemma SenderConserves(st: State, st': State, who: SenderId, p: Place)
    requires Conserved(st) && st'.senders == st.senders[who := p]
    requires var q := At(st, who);
      && st'.sent - |st'.accepted| - st'.abandoned - (if Counted(p) then 1 else 0)
         == st.sent - |st.accepted| - st.abandoned - (if Counted(q) then 1 else 0)
      && st'.fulls - st'.blocked - (if p.Full? then 1 else 0) == st.fulls - st.blocked - (if q.Full? then 1 else 0)
    requires st'.accepted == st'.delivered + st'.queue
    requires st'.received == st.received && st'.unnoted == st.unnoted && st'.endings == st.endings
    requires st'.delivered == st.delivered
    ensures Conserved(st')
  {
    hide InProgress, Blocking;
    Moved(st.senders, who, p);
    MovedFull(st.senders, who, p);
  }

  lemma SendStepConserves(st: State, s: Step)
    requires s.Begin? || s.InnerAccepts? || s.InnerFull? || s.InnerClosed? || s.NoteBlocked?
    requires Conserved(st)
    ensures Conserved(Next(st, s))
  {
    var st' := Next(st, s);
    if st' != st {
      hide InProgress, Blocking;
      if s.InnerAccepts? {
        var m := At(st, s.who).message;
        assert st.delivered + (st.queue + [m]) == (st.delivered + st.queue) + [m];
      }
      SenderConserves(st, st', s.who, st'.senders[s.who]);
    }
  }

  lemma RetryStepConserves(st: State, s: Step)
    requires s.Retract? || s.NoteAgain? || s.InnerFails? || s.Abandon?
    requires Conserved(st)
    ensures Conserved(Next(st, s))
  {
    var st' := Next(st, s);
    if st' != st {
      hide InProgress, Blocking;
      SenderConserves(st, st', s.who, st'.senders[s.who]);
    }
  }

  lemma CloneConserves(st: State, from: SenderId, to: SenderId)
    requires Conserved(st)
    ensures Conserved(Next(st, Clone(from, to)))
  {
    hide InProgress, Blocking;
    Moved(st.senders, to, Idle);
    MovedFull(st.senders, to, Idle);
  }

  lemma DropConserves(st: State, who: SenderId)
    requires Conserved(st)
    ensures Conserved(Next(st, DropSender(who)))
  {
    hide InProgress, Blocking;
    if At(st, who).Idle? {
      Removed(st.senders, who);
    }
  }

  lemma ReceiveStepConserves(st: State, s: Step)
    requires s.CloseReceiver? || s.Deliver? || s.NoteReceived? || s.PollEnd?
    requires Conserved(st)
    ensures Conserved(Next(st, s))
  {
    hide InProgress, Blocking;
  }

  lemma NextConserves(st: State, s: Step)
    requires Conserved(st)
    ensures Conserved(Next(st, s))
  {
    hide *;
    match s {
      case Clone(from, to) => CloneConserves(st, from, to);
      case DropSender(who) => DropConserves(st, who);
      case CloseReceiver => ReceiveStepConserves(st, s);
      case Deliver => ReceiveStepConserves(st, s);
      case NoteReceived => ReceiveStepConserves(st, s);
      case PollEnd => ReceiveStepConserves(st, s);
      case Retract(_) => RetryStepConserves(st, s);
      case NoteAgain(_) => RetryStepConserves(st, s);
      case InnerFails(_) => RetryStepConserves(st, s);
      case Abandon(_) => RetryStepConserves(st, s);
      case _ => SendStepConserves(st, s);
    }
  }

  lemma Removed(senders: map<SenderId, Place>, who: SenderId)
    requires who in senders ==> !Counted(senders[who])
    ensures InProgress(senders - {who}) == InProgress(senders)
    ensures Blocking(senders - {who}) == Blocking(senders)
  {
  }

  /** The four conservation laws, after any interleaving of any steps. */
  lemma {:induction false} RunConserves(first: SenderId, steps: seq<Step>)
    ensures Conserved(Run(first, steps))
  {
    hide Next;
    if steps == [] {
      assert InProgress(Initial(first).senders) == {} && Blocking(Initial(first).senders) == {};
    } else {
      RunConserves(first, steps[..|steps| - 1]);
      NextConserves(Run(first, steps[..|steps| - 1]), steps[|steps| - 1]);
    }
  }

  /** `sent` never drops below what was delivered, so it never wraps below zero. */
  lemma {:induction false} SentNeverNegative(first: SenderId, steps: seq<Step>)
    ensures var st := Run(first, steps); st.sent >= |st.accepted| >= |st.delivered|
  {
    RunConserves(first, steps);
  }

  // ---- When the counters tell the truth ----

  /** No `send` is dropped while it awaits room in the queue. */
  ghost predicate NoSendAbandoned(first: SenderId, steps: seq<Step>) {
    forall i | 0 <= i < |steps| && steps[i].Abandon? :: !At(Run(first, steps[..i]), steps[i].who).Waiting?
  }

  /** The receiver is not polled once the stream has ended. */
  ghost predicate EndNotPolled(first: SenderId, steps: seq<Step>) {
    forall i | 0 <= i < |steps| && steps[i].PollEnd? :: !Ended(Run(first, steps[..i]))
  }

  lemma NoSendAbandonedLast(first: SenderId, steps: seq<Step>, s: Step)
    ensures NoSendAbandoned(first, steps + [s]) <==>
            NoSendAbandoned(first, steps) && (s.Abandon? ==> !At(Run(first, steps), s.who).Waiting?)
  {
    hide Run;
    var all := steps + [s];
    assert forall i | 0 <= i < |steps| :: all[i] == steps[i] && all[..i] == steps[..i];
    assert all[|steps|] == s && all[..|steps|] == steps;
  }

  lemma EndNotPolledLast(first: SenderId, steps: seq<Step>, s: Step)
    ensures EndNotPolled(first, steps + [s]) <==>
            EndNotPolled(first, steps) && (s.PollEnd? ==> !Ended(Run(first, steps)))
  {
    hide Run, Ended;
    var all := steps + [s];
    assert forall i | 0 <= i < |steps| :: all[i] == steps[i] && all[..i] == steps[..i];
    assert all[|steps|] == s && all[..|steps|] == steps;
  }

  lemma NextCounts(st: State, s: Step)
    ensures Next(st, s).abandoned == st.abandoned + if s.Abandon? && At(st, s.who).Waiting? then 1 else 0
    ensures Next(st, s).endings == st.endings + if s.PollEnd? && Ended(st) then 1 else 0
  {
  }

  lemma RunOneMore(first: SenderId, steps: seq<Step>, s: Step)
    ensures Run(first, steps + [s]) == Next(Run(first, steps), s)
  {
    hide Next;
    assert (steps + [s])[..|steps|] == steps;
  }

  lemma {:induction false} HistoryExactly(first: SenderId, steps: seq<Step>)
    ensures Run(first, steps).abandoned == 0 <==> NoSendAbandoned(first, steps)
    ensures Run(first, steps).endings == 0 <==> EndNotPolled(first, steps)
  {
    if steps != [] {
      hide *;
      var before, s := steps[..|steps| - 1], steps[|steps| - 1];
      assert steps == before + [s];
      HistoryExactly(first, before);
      RunOneMore(first, before, s);
      NextCounts(Run(first, before), s);
      NoSendAbandonedLast(first, before, s);
      EndNotPolledLast(first, before, s);
    }
  }

  /**
   With no send in progress, `sent` minus the delivered items is the queue length exactly
   when no awaited `send` was dropped.
   */
  lemma {:induction false} QueueLengthExactly(first: SenderId, steps: seq<Step>)
    requires InProgress(Run(first, steps).senders) == {}
    ensures var st := Run(first, steps);
      st.sent - |st.delivered| == |st.queue| <==> NoSendAbandoned(first, steps)
  {
    RunConserves(first, steps);
    HistoryExactly(first, steps);
  }

  /** With every delivery noted, `received` counts deliveries exactly when the end was not polled. */
  lemma {:induction false} ReceivedExactly(first: SenderId, steps: seq<Step>)
    requires Run(first, steps).unnoted == 0
    ensures var st := Run(first, steps); st.received == |st.delivered| <==> EndNotPolled(first, steps)
  {
    RunConserves(first, steps);
    HistoryExactly(first, steps);
  }

  lemma FirstSent(who: SenderId, m: Message)
    ensures Run(who, [Begin(who, m, false), InnerAccepts(who)]) ==
            Initial(who).(sent := 1, queue := [m], accepted := [m])
  {
    var p1: seq<Step> := [Begin(who, m, false)];
    assert [] + p1 == p1 && p1 + [InnerAccepts(who)] == [Begin(who, m, false), InnerAccepts(who)];
    RunOneMore(who, [], Begin(who, m, false));
    RunOneMore(who, p1, InnerAccepts(who));
    assert map[who := Idle][who := Noted(m, false)][who := Idle] == map[who := Idle];
  }

  lemma SecondBlocked(who: SenderId, steps: seq<Step>, m1: Message, m2: Message)
    requires Run(who, steps) == Initial(who).(sent := 1, queue := [m1], accepted := [m1])
    ensures Run(who, steps + [Begin(who, m2, true), InnerFull(who), NoteBlocked(who), Retract(who)]) ==
            Run(who, steps).(senders := map[who := Retrying(m2)], blocked := 1, fulls := 1)
  {
    var p1 := steps + [Begin(who, m2, true)];
    var p2 := p1 + [InnerFull(who)];
    var p3 := p2 + [NoteBlocked(who)];
    RunOneMore(who, steps, Begin(who, m2, true));
    RunOneMore(who, p1, InnerFull(who));
    RunOneMore(who, p2, NoteBlocked(who));
    RunOneMore(who, p3, Retract(who));
    hide Run;
    assert p3 + [Retract(who)] == steps + [Begin(who, m2, true), InnerFull(who), NoteBlocked(who), Retract(who)];
    assert Run(who, p1).senders == map[who := Noted(m2, true)];
    assert Run(who, p2).senders == map[who := Full(m2, true)];
    assert Run(who, p3).senders == map[who := Refused(m2, true, true)];
  }

  lemma BlockedDropped(who: SenderId, steps: seq<Step>, m1: Message, m2: Message)
    requires var st := Run(who, steps);
      && st.senders == map[who := Retrying(m2)] && st.queue == st.accepted == [m1] && st.delivered == []
      && st.sent == 1
    ensures var st := Run(who, steps + [NoteAgain(who), Abandon(who), Deliver, NoteReceived]);
      && st.sent == 2 && st.accepted == st.delivered == [m1] && st.queue == []
      && InProgress(st.senders) == {}
  {
    var p1 := steps + [NoteAgain(who)];
    var p2 := p1 + [Abandon(who)];
    var p3 := p2 + [Deliver];
    RunOneMore(who, steps, NoteAgain(who));
    RunOneMore(who, p1, Abandon(who));
    RunOneMore(who, p2, Deliver);
    RunOneMore(who, p3, NoteReceived);
    hide Run;
    assert p3 + [NoteReceived] == steps + [NoteAgain(who), Abandon(who), Deliver, NoteReceived];
    hide InProgress;
    assert Run(who, p1).senders == map[who := Waiting(m2)];
    assert Run(who, p2).senders == map[who := Idle];
    OneIdle(who);
  }

  lemma OneIdle(who: SenderId)
    ensures InProgress(map[who := Idle]) == {}
  {
  }

  /**
   The first message fills the queue; a second `send` meets it full, waits and is dropped;
   then the first message is received. One message was accepted, and `sent` is two.
   */
  lemma AbandonedSendCounted(who: SenderId, m1: Message, m2: Message)
    ensures var st := Run(who, [Begin(who, m1, false), InnerAccepts(who),
                                Begin(who, m2, true), InnerFull(who), NoteBlocked(who), Retract(who),
                                NoteAgain(who), Abandon(who), Deliver, NoteReceived]);
      && st.sent == 2 && st.accepted == st.delivered == [m1] && st.queue == []
      && InProgress(st.senders) == {}
  {
    var start := [Begin(who, m1, false), InnerAccepts(who)];
    var blocked := [Begin(who, m2, true), InnerFull(who), NoteBlocked(who), Retract(who)];
    var dropped := [NoteAgain(who), Abandon(who), Deliver, NoteReceived];
    FirstSent(who, m1);
    SecondBlocked(who, start, m1, m2);
    BlockedDropped(who, start + blocked, m1, m2);
    assert start + blocked + dropped ==
      [Begin(who, m1, false), InnerAccepts(who), Begin(who, m2, true), InnerFull(who), NoteBlocked(who),
       Retract(who), NoteAgain(who), Abandon(who), Deliver, NoteReceived];
  }

  /** The only sender is dropped and the end of the stream polled: one receive, no delivery. */
  lemma EndCounted(who: SenderId)
    ensures var st := Run(who, [DropSender(who), PollEnd]);
      st.received == 1 && st.unnoted == 0 && st.delivered == []
  {
    RunOneMore(who, [], DropSender(who));
    RunOneMore(who, [DropSender(who)], PollEnd);
    assert [] + [DropSender(who)] == [DropSender(who)];
    assert [DropSender(who)] + [PollEnd] == [DropSender(who), PollEnd];
    assert map[who := Idle] - {who} == map[];
  }

  /** With no send in progress, `blocked` counts the sends that met a full queue. */
  lemma {:induction false} BlockedExactly(first: SenderId, steps: seq<Step>)
    requires InProgress(Run(first, steps).senders) == {}
    ensures Run(first, steps).blocked == Run(first, steps).fulls
  {
    RunConserves(first, steps);
    var senders := Run(first, steps).senders;
    assert Blocking(senders) <= InProgress(senders);
  }

  // ---- Each send does what it was called for ----

  /** The latest send of a sender: its message, whether it may wait, and whether it met a full queue. */
  datatype Attempt = Attempt(message: Message, waits: bool, full: bool)

  function NextAttempt(st: State, s: Step, who: SenderId, a: Option<Attempt>): Option<Attempt> {
    match s
    case Begin(w, m, waits) =>
      if w == who && w in st.senders && At(st, w).Idle? then Some(Attempt(m, waits, false)) else a
    case InnerFull(w) =>
      if w == who && !st.closed && At(st, w).Noted? && a.Some? then Some(a.value.(full := true)) else a
    case _ => a
  }

  function AttemptOf(first: SenderId, steps: seq<Step>, who: SenderId): Option<Attempt> {
    if steps == [] then None
    else
      var before := steps[..|steps| - 1];
      NextAttempt(Run(first, before), steps[|steps| - 1], who, AttemptOf(first, before, who))
  }

  /** A sender's place is one its latest send leads to: only a waiting send that met a full queue waits. */
  ghost predicate Follows(p: Place, a: Option<Attempt>) {
    match p
    case Idle => true
    case Noted(m, waits) => a == Some(Attempt(m, waits, false))
    case Full(m, waits) => a == Some(Attempt(m, waits, true))
    case Refused(m, waits, full) => a == Some(Attempt(m, waits, full))
    case Retrying(m) => a == Some(Attempt(m, true, true))
    case Waiting(m) => a == Some(Attempt(m, true, true))
    case Failed => a.Some? && a.value.waits && a.value.full
  }

  lemma NextFollows(st: State, s: Step, who: SenderId, a: Option<Attempt>)
    requires Follows(At(st, who), a)
    ensures Follows(At(Next(st, s), who), NextAttempt(st, s, who, a))
  {
  }

  /** In every interleaving every sender follows its latest send. */
  lemma {:induction false} SendersFollow(first: SenderId, steps: seq<Step>, who: SenderId)
    ensures Follows(At(Run(first, steps), who), AttemptOf(first, steps, who))
  {
    hide Next, NextAttempt, Follows;
    if steps == [] {
      IdleFollows(first, who);
    } else {
      var before := steps[..|steps| - 1];
      SendersFollow(first, before, who);
      NextFollows(Run(first, before), steps[|steps| - 1], who, AttemptOf(first, before, who));
    }
  }

  lemma IdleFollows(first: SenderId, who: SenderId)
    ensures Follows(At(Initial(first), who), None)
  {
  }

  /** After a refusal a send waits exactly if it may wait and the queue was full; `sent` is taken back. */
  lemma {:induction false} RefusalExactly(first: SenderId, steps: seq<Step>, who: SenderId)
    requires At(Run(first, steps), who).Refused?
    ensures var st, st' := Run(first, steps), Run(first, steps + [Retract(who)]);
      && st'.sent == st.sent - 1
      && AttemptOf(first, steps, who).Some?
      && var a := AttemptOf(first, steps, who).value;
         At(st', who) == if a.waits && a.full then Retrying(a.message) else Idle
  {
    SendersFollow(first, steps, who);
    RunOneMore(first, steps, Retract(who));
    hide Run, AttemptOf;
  }

  /** What the inner queue accepts is the message of the sender's latest send, at the end of the queue. */
  lemma {:induction false} AcceptsExactly(first: SenderId, steps: seq<Step>, who: SenderId)
    requires var st := Run(first, steps); !st.closed && (At(st, who).Noted? || At(st, who).Waiting?)
    ensures var st, st' := Run(first, steps), Run(first, steps + [InnerAccepts(who)]);
      && At(st', who).Idle? && st'.sent == st.sent
      && AttemptOf(first, steps, who).Some?
      && var m := AttemptOf(first, steps, who).value.message;
         st'.queue == st.queue + [m] && st'.accepted == st.accepted + [m]
  {
    SendersFollow(first, steps, who);
    RunOneMore(first, steps, InnerAccepts(who));
    hide Run, AttemptOf;
  }

  // ---- Failed sends leave no trace ----

  /** A send on a closed channel leaves everything as it was. */
  lemma ClosedSendUndone(st: State, who: SenderId, m: Message, waits: bool)
    requires st.closed && who in st.senders && At(st, who).Idle?
    ensures Next(Next(Next(st, Begin(who, m, waits)), InnerClosed(who)), Retract(who)) == st
  {
    var st1 := Next(st, Begin(who, m, waits));
    var st2 := Next(st1, InnerClosed(who));
    assert st2 == st.(senders := st.senders[who := Refused(m, waits, false)], sent := st.sent + 1);
    assert st.senders[who := Idle] == st.senders;
  }

  /** A `try_send` on a full queue leaves everything as it was, but for the count of blocked sends. */
  lemma FullTrySendUndone(st: State, who: SenderId, m: Message)
    requires !st.closed && who in st.senders && At(st, who).Idle?
    ensures Next(Next(Next(Next(st, Begin(who, m, false)), InnerFull(who)), NoteBlocked(who)), Retract(who)) ==
            st.(blocked := st.blocked + 1, fulls := st.fulls + 1)
  {
    var st1 := Next(st, Begin(who, m, false));
    var st2 := Next(st1, InnerFull(who));
    assert st2 == st.(senders := st.senders[who := Full(m, false)], sent := st.sent + 1, fulls := st.fulls + 1);
    var st3 := Next(st2, NoteBlocked(who));
    assert st3 == st2.(senders := st.senders[who := Refused(m, false, true)], blocked := st.blocked + 1);
    assert st.senders[who := Idle] == st.senders;
  }

  /** An awaited send that fails because the channel closes takes back its count. */
  lemma FailedWaitUndone(st: State, who: SenderId)
    requires st.closed && At(st, who).Waiting?
    ensures Next(Next(st, InnerFails(who)), Retract(who)) ==
            st.(senders := st.senders[who := Idle], sent := st.sent - 1)
  {
    assert Next(st, InnerFails(who)).senders == st.senders[who := Failed];
    assert st.senders[who := Failed][who := Idle] == st.senders[who := Idle];
  }

  /** A clone is a sender of its own, idle; dropping an idle sender removes just that one. */
  lemma CloneAndDrop(st: State, from: SenderId, to: SenderId)
    requires from in st.senders && to !in st.senders
    ensures Next(st, Clone(from, to)) == st.(senders := st.senders[to := Idle])
    ensures Next(Next(st, Clone(from, to)), DropSender(to)) == st
  {
    assert st.senders[to := Idle] - {to} == st.senders;
  }

  /** Receiving hands out the oldest queued message and counts it; nothing else changes. */
  lemma ReceiveExactly(st: State)
    requires st.queue != []
    ensures Next(Next(st, Deliver), NoteReceived) ==
            st.(queue := st.queue[1..], delivered := st.delivered + [st.queue[0]], received := st.received + 1)
  {
  }

  /** A send that retries is counted again and then awaits room; closing the receiver closes the channel. */
  lemma RetryAndClose(st: State, who: SenderId, m: Message)
    ensures At(st, who) == Retrying(m) ==>
      Next(st, NoteAgain(who)) == st.(senders := st.senders[who := Waiting(m)], sent := st.sent + 1)
    ensures Next(st, CloseReceiver) == st.(closed := true)
  {
  }
}

/**
 Votes are conserved: each accepted import adds exactly one, nothing else adds or
 removes any, and a second vote is a duplicate or is filed as misbehavior.
 */
module StatementVotes {
  import opened Options
  import opened Statements
  import opened StatementTable
  import opened StatementRuns
  import opened StatementEvidence

  ghost function VotePairs(t: Tables): set<(Digest, AuthorityId)> {
    set d, a | d in t.candidateVotes && a in t.candidateVotes[d].validityVotes :: (d, a)
  }

  /** How many imports of the run returned a summary. */
  function AcceptedImports(ctx: Context, evs: seq<Event>): nat {
    if evs == [] then 0
    else
      var before, e := evs[..|evs| - 1], evs[|evs| - 1];
      AcceptedImports(ctx, before) +
      if Run(ctx, before).Some? && e.Import? && ImportStatement(ctx, Run(ctx, before).value, e.statement).1.Accepted?
      then 1 else 0
  }

  /** Anything but a summary leaves every vote as it was. */
  lemma NoSummaryNoVote(ctx: Context, t: Tables, s: SignedStatement)
    requires !ImportStatement(ctx, t, s).1.Accepted? && !ImportStatement(ctx, t, s).1.Panicked?
    ensures ImportStatement(ctx, t, s).0.candidateVotes == t.candidateVotes
  {
    hide Effect;
    if InGroupSeconding(ctx, s) && ProposalOf(t, s.sender).None? && About(ctx, s) !in t.candidateVotes {
      FirstSeenEffect(ctx, t, s);
    }
  }

  /** A summary means one new vote, by the sender, and reports the votes there now are. */
  lemma SummaryOneVote(ctx: Context, t: Tables, s: SignedStatement)
    requires WellFormed(ctx, t) && ImportStatement(ctx, t, s).1.Accepted?
    ensures var (t', r) := ImportStatement(ctx, t, s); var d := About(ctx, s);
      && VoteOf(t, d, s.sender).None?
      && VoteOf(t', d, s.sender) == Some(if s.statement.Seconded? then Issued(s.signature) else Explicit(s.signature))
      && VotePairs(t') == VotePairs(t) + {(d, s.sender)}
      && r.summary == Summary(d, t'.candidateVotes[d].groupId, |t'.candidateVotes[d].validityVotes|)
  {
    hide ImportStatement, WellFormed;
    ImportEffect(ctx, t, s);
    AcceptedVoteIsNew(ctx, t, s);
    OnePairMore(ctx, t, s, ImportStatement(ctx, t, s).0);
  }

  lemma OnePairMore(ctx: Context, t: Tables, s: SignedStatement, t': Tables)
    requires Effect(ctx, t, s, t') && VoteOf(t', About(ctx, s), s.sender).Some?
    ensures VotePairs(t') == VotePairs(t) + {(About(ctx, s), s.sender)}
  {
    forall d, a ensures (d, a) in VotePairs(t') <==> (d, a) in VotePairs(t) + {(About(ctx, s), s.sender)} {
      assert (d, a) in VotePairs(t') <==> VoteOf(t', d, a).Some?;
      assert (d, a) in VotePairs(t) <==> VoteOf(t, d, a).Some?;
    }
  }

  lemma AcceptedVoteIsNew(ctx: Context, t: Tables, s: SignedStatement)
    requires ImportStatement(ctx, t, s).1.Accepted?
    ensures var (t', r) := ImportStatement(ctx, t, s); var d := About(ctx, s);
      && VoteOf(t, d, s.sender).None?
      && VoteOf(t', d, s.sender) == Some(if s.statement.Seconded? then Issued(s.signature) else Explicit(s.signature))
      && r.summary == SummaryOf(t'.candidateVotes[d], d)
  {
  }

  /** The votes in the table are as many as the summaries returned. */
  lemma {:induction false} VotesConserved(ctx: Context, evs: seq<Event>)
    requires Run(ctx, evs).Some?
    ensures |VotePairs(Run(ctx, evs).value)| == AcceptedImports(ctx, evs)
  {
    if evs == [] {
      assert VotePairs(EMPTY) == {};
    } else {
      var before, e := evs[..|evs| - 1], evs[|evs| - 1];
      VotesConserved(ctx, before);
      RunInvariant(ctx, before);
      var t := Run(ctx, before).value;
      match e {
        case Drain => assert VotePairs(t.(misbehavior := map[])) == VotePairs(t);
        case Import(s) =>
          if ImportStatement(ctx, t, s).1.Accepted? {
            SummaryOneVote(ctx, t, s);
            assert (About(ctx, s), s.sender) !in VotePairs(t);
          } else {
            NoSummaryNoVote(ctx, t, s);
            assert VotePairs(Run(ctx, evs).value) == VotePairs(t);
          }
      }
    }
  }

  /** A statement once accepted is a duplicate ever after: importing it again changes nothing. */
  lemma {:induction false} ReplayIgnored(ctx: Context, evs: seq<Event>, s: SignedStatement, more: seq<Event>)
    requires Run(ctx, evs).Some? && ImportStatement(ctx, Run(ctx, evs).value, s).1.Accepted?
    requires Run(ctx, evs + [Import(s)] + more).Some?
    ensures ImportStatement(ctx, Run(ctx, evs + [Import(s)] + more).value, s)
         == (Run(ctx, evs + [Import(s)] + more).value, Ignored)
  {
    var t0 := Run(ctx, evs).value;
    RunInvariant(ctx, evs);
    RunStep(ctx, evs, Import(s));
    var t1, t2 := Run(ctx, evs + [Import(s)]).value, Run(ctx, evs + [Import(s)] + more).value;
    AcceptedVoteIsNew(ctx, t0, s);
    AcceptedIsInGroup(ctx, t0, s);
    RunGrows(ctx, evs + [Import(s)], more);
    StillDuplicate(ctx, t1, t2, s);
  }

  lemma AcceptedIsInGroup(ctx: Context, t: Tables, s: SignedStatement)
    requires ImportStatement(ctx, t, s).1.Accepted?
    ensures var t' := ImportStatement(ctx, t, s).0;
      && ctx.isMemberOf(s.sender, t'.candidateVotes[About(ctx, s)].groupId)
      && (s.statement.Seconded? ==>
            && InGroupSeconding(ctx, s)
            && ProposalOf(t', s.sender).Some?
            && ProposalOf(t', s.sender).value.digest == About(ctx, s))
  {
  }

  lemma StillDuplicate(ctx: Context, t1: Tables, t2: Tables, s: SignedStatement)
    requires Grows(t1, t2)
    requires VoteOf(t1, About(ctx, s), s.sender)
          == Some(if s.statement.Seconded? then Issued(s.signature) else Explicit(s.signature))
    requires ctx.isMemberOf(s.sender, t1.candidateVotes[About(ctx, s)].groupId)
    requires s.statement.Seconded? ==>
      && InGroupSeconding(ctx, s)
      && ProposalOf(t1, s.sender).Some?
      && ProposalOf(t1, s.sender).value.digest == About(ctx, s)
    ensures ImportStatement(ctx, t2, s) == (t2, Ignored)
  {
  }

  /**
   Once a statement was accepted, any other statement of its sender on the same digest
   is filed as misbehavior, at once and however much later.
   */
  lemma {:induction false} ConflictFaulted(ctx: Context, evs: seq<Event>, s1: SignedStatement, more: seq<Event>,
                                           s2: SignedStatement)
    requires DigestsBindMembers(ctx)
    requires Run(ctx, evs).Some? && ImportStatement(ctx, Run(ctx, evs).value, s1).1.Accepted?
    requires Run(ctx, evs + [Import(s1)] + more).Some?
    requires s1 != s2 && s1.sender == s2.sender && About(ctx, s1) == About(ctx, s2)
    ensures ImportStatement(ctx, Run(ctx, evs + [Import(s1)] + more).value, s2).1.Faulted?
  {
    hide Run;
    var t0 := Run(ctx, evs).value;
    RunStep(ctx, evs, Import(s1));
    var t1, t2 := Run(ctx, evs + [Import(s1)]).value, Run(ctx, evs + [Import(s1)] + more).value;
    AcceptedVoteIsNew(ctx, t0, s1);
    AcceptedIsInGroup(ctx, t0, s1);
    RunGrows(ctx, evs + [Import(s1)], more);
    hide ImportStatement;
    if ProposalOf(t2, s1.sender).Some? {
      ProposalExists(ctx, evs + [Import(s1)] + more, s1.sender);
    }
    var d := About(ctx, s1);
    assert VoteOf(t2, d, s1.sender) == VoteOf(t1, d, s1.sender);
    SecondVoteFaulted(ctx, t2, s1, s2);
  }

  lemma SecondVoteFaulted(ctx: Context, t: Tables, s1: SignedStatement, s2: SignedStatement)
    requires DigestsBindMembers(ctx)
    requires s1 != s2 && s1.sender == s2.sender && About(ctx, s1) == About(ctx, s2)
    requires VoteOf(t, About(ctx, s1), s1.sender)
          == Some(if s1.statement.Seconded? then Issued(s1.signature) else Explicit(s1.signature))
    requires ctx.isMemberOf(s1.sender, t.candidateVotes[About(ctx, s1)].groupId)
    requires s1.statement.Seconded? ==> InGroupSeconding(ctx, s1) && ProposalOf(t, s1.sender).Some?
    requires var p := ProposalOf(t, s1.sender); p.Some? ==> p.value.digest in t.candidateVotes
    ensures ImportStatement(ctx, t, s2).1.Faulted?
  {
    hide Clash;
    if s1.statement.Seconded? && InGroupSeconding(ctx, s2) {
      assert s1.statement.candidate == s2.statement.candidate;
    }
  }

  /** `s1` was accepted after `evs`; `s2` is another statement of its sender on its digest, imported later. */
  ghost predicate Contradicts(ctx: Context, evs: seq<Event>, s1: SignedStatement, more: seq<Event>,
                              s2: SignedStatement) {
    && Run(ctx, evs).Some? && ImportStatement(ctx, Run(ctx, evs).value, s1).1.Accepted?
    && Run(ctx, evs + [Import(s1)] + more).Some?
    && s1 != s2 && s1.sender == s2.sender && About(ctx, s1) == About(ctx, s2)
  }

  /** Seconding two candidates of one digest with one signature goes unnoticed. */
  lemma UnnoticedConflict(ctx: Context, c1: Candidate, c2: Candidate, a: AuthorityId)
    requires ctx.digestOf(c1) == ctx.digestOf(c2) && c1 != c2
    requires ctx.isMemberOf(a, ctx.groupOf(c1)) && ctx.isMemberOf(a, ctx.groupOf(c2))
    ensures var s1 := SignedStatement(Seconded(c1), Signature(0), a);
      var s2 := SignedStatement(Seconded(c2), Signature(0), a);
      && Contradicts(ctx, [], s1, [], s2)
      && ImportStatement(ctx, Run(ctx, [] + [Import(s1)] + []).value, s2).1 == Ignored
  {
    var s1, s2 := SignedStatement(Seconded(c1), Signature(0), a), SignedStatement(Seconded(c2), Signature(0), a);
    assert Run(ctx, []) == Some(EMPTY);
    assert [] + [Import(s1)] + [] == [] + [Import(s1)];
    RunStep(ctx, [], Import(s1));
    FirstAccepted(ctx, s1);
    hide Run, ImportStatement;
    var t := ImportStatement(ctx, EMPTY, s1).0;
    AcceptedVoteIsNew(ctx, EMPTY, s1);
    AcceptedIsInGroup(ctx, EMPTY, s1);
    hide Grows;
    GrowsItself(t);
    StillDuplicate(ctx, t, t, s2);
  }

  lemma FirstAccepted(ctx: Context, s: SignedStatement)
    requires InGroupSeconding(ctx, s)
    ensures ImportStatement(ctx, EMPTY, s).1.Accepted?
  {
    hide Effect;
    FirstSeenEffect(ctx, EMPTY, s);
  }

  lemma GrowsItself(t: Tables)
    ensures Grows(t, t)
  {
  }

  /** Every contradiction is filed, in every run, exactly when digests bind members. */
  lemma ConflictFaultedExactly(ctx: Context)
    ensures (forall evs, s1, more, s2 | Contradicts(ctx, evs, s1, more, s2) ::
               ImportStatement(ctx, Run(ctx, evs + [Import(s1)] + more).value, s2).1.Faulted?)
            <==> DigestsBindMembers(ctx)
  {
    hide Run, ImportStatement;
    if DigestsBindMembers(ctx) {
      forall evs, s1, more, s2 | Contradicts(ctx, evs, s1, more, s2)
        ensures ImportStatement(ctx, Run(ctx, evs + [Import(s1)] + more).value, s2).1.Faulted?
      {
        ConflictFaulted(ctx, evs, s1, more, s2);
      }
    } else {
      var c1, c2, a :|
        && ctx.digestOf(c1) == ctx.digestOf(c2)
        && ctx.isMemberOf(a, ctx.groupOf(c1))
        && ctx.isMemberOf(a, ctx.groupOf(c2))
        && c1 != c2;
      UnnoticedConflict(ctx, c1, c2, a);
    }
  }
}

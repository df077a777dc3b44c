/**
 Whole runs of the statement table. A run is any sequence of imports and drains,
 starting from the empty table; it ends at the first panic.
 */
module StatementRuns {
  import opened Options
  import opened Statements
  import opened StatementTable

  datatype Event = Import(statement: SignedStatement) | Drain

  function Apply(ctx: Context, t: Tables, e: Event): Option<Tables> {
    match e
    case Drain => Some(t.(misbehavior := map[]))
    case Import(s) =>
      var (t', r) := ImportStatement(ctx, t, s);
      if r.Panicked? then None else Some(t')
  }

  /** The table after a run, or `None` if the run panicked. */
  function Run(ctx: Context, evs: seq<Event>): Option<Tables> {
    if evs == [] then Some(EMPTY)
    else
      match Run(ctx, evs[..|evs| - 1])
      case None => None
      case Some(t) => Apply(ctx, t, evs[|evs| - 1])
  }

  lemma RunStep(ctx: Context, evs: seq<Event>, e: Event)
    ensures Run(ctx, evs + [e]) ==
            match Run(ctx, evs) { case None => None case Some(t) => Apply(ctx, t, e) }
  {
  }

  ghost predicate Submitted(evs: seq<Event>, s: SignedStatement) {
    Import(s) in evs
  }

  /** `a` seconded, within its own group, some candidate of digest `d` with signature `s`. */
  ghost predicate SecondedBy(ctx: Context, evs: seq<Event>, a: AuthorityId, d: Digest, s: Signature) {
    exists c ::
      && Submitted(evs, SignedStatement(Seconded(c), s, a))
      && ctx.digestOf(c) == d
      && ctx.isMemberOf(a, ctx.groupOf(c))
  }

  /** Some authority seconded exactly candidate `c` within its own group. */
  ghost predicate Introduced(ctx: Context, evs: seq<Event>, c: Candidate) {
    exists b, s ::
      && Submitted(evs, SignedStatement(Seconded(c), s, b))
      && ctx.isMemberOf(b, ctx.groupOf(c))
  }

  // ---- What every reachable table satisfies ----

  /** Each tracked candidate sits under its own digest and group, with some issued vote. */
  ghost predicate EntriesMatch(ctx: Context, t: Tables) {
    forall d | d in t.candidateVotes ::
      && ctx.digestOf(t.candidateVotes[d].candidate) == d
      && ctx.groupOf(t.candidateVotes[d].candidate) == t.candidateVotes[d].groupId
      && exists a :: VoteOf(t, d, a).Some? && VoteOf(t, d, a).value.Issued?
  }

  /** Each stored proposal names a tracked candidate, on which its author has a vote. */
  ghost predicate ProposalsTracked(t: Tables) {
    forall a | ProposalOf(t, a).Some? :: VoteOf(t, ProposalOf(t, a).value.digest, a).Some?
  }

  /** Voters belong to the candidate's group, and an issued vote is its author's proposal. */
  ghost predicate VotesAuthorized(ctx: Context, t: Tables) {
    forall d, a | VoteOf(t, d, a).Some? ::
      && ctx.isMemberOf(a, t.candidateVotes[d].groupId)
      && (VoteOf(t, d, a).value.Issued? ==>
            ProposalOf(t, a) == Some(Proposal(d, VoteOf(t, d, a).value.signature)))
  }

  ghost predicate ListsNonEmpty(t: Tables) {
    forall a | a in t.misbehavior :: t.misbehavior[a] != []
  }

  ghost predicate WellFormed(ctx: Context, t: Tables) {
    EntriesMatch(ctx, t) && ProposalsTracked(t) && VotesAuthorized(ctx, t) && ListsNonEmpty(t)
  }

  /** Every candidate, proposal and vote in the table was really submitted in the run. */
  ghost predicate Backed(ctx: Context, evs: seq<Event>, t: Tables) {
    && (forall d | d in t.candidateVotes :: Introduced(ctx, evs, t.candidateVotes[d].candidate))
    && (forall a | ProposalOf(t, a).Some? ::
          SecondedBy(ctx, evs, a, ProposalOf(t, a).value.digest, ProposalOf(t, a).value.signature))
    && (forall d, a | VoteOf(t, d, a).Some? && VoteOf(t, d, a).value.Explicit? ::
          Submitted(evs, SignedStatement(Valid(d), VoteOf(t, d, a).value.signature, a)))
  }

  /** Later tables keep every candidate and every vote. */
  ghost predicate Grows(t: Tables, t': Tables) {
    && (forall d | d in t.candidateVotes ::
          && d in t'.candidateVotes
          && t'.candidateVotes[d].candidate == t.candidateVotes[d].candidate
          && t'.candidateVotes[d].groupId == t.candidateVotes[d].groupId)
    && (forall d, a | VoteOf(t, d, a).Some? :: VoteOf(t', d, a) == VoteOf(t, d, a))
    && (forall a | ProposalOf(t, a).Some? :: ProposalOf(t', a) == ProposalOf(t, a))
  }

  lemma BackedMonotone(ctx: Context, evs: seq<Event>, t: Tables, e: Event)
    requires Backed(ctx, evs, t)
    ensures Backed(ctx, evs + [e], t)
  {
  }

  /** An import changes at most one vote and one proposal, both of the sender's. */
  ghost predicate Effect(ctx: Context, t: Tables, s: SignedStatement, t': Tables) {
    var d := About(ctx, s);
    && Grows(t, t')
    && (forall d' | d' in t'.candidateVotes && d' !in t.candidateVotes ::
          && d' == d
          && s.statement.Seconded?
          && ctx.isMemberOf(s.sender, ctx.groupOf(s.statement.candidate))
          && VoteOf(t', d, s.sender) == Some(Issued(s.signature))
          && t'.candidateVotes[d].candidate == s.statement.candidate
          && t'.candidateVotes[d].groupId == ctx.groupOf(s.statement.candidate))
    && (forall a | ProposalOf(t', a) != ProposalOf(t, a) ::
          && a == s.sender
          && s.statement.Seconded?
          && ctx.isMemberOf(a, ctx.groupOf(s.statement.candidate))
          && ProposalOf(t', a) == Some(Proposal(d, s.signature))
          && VoteOf(t', d, a).Some?)
    && (forall d', a | VoteOf(t', d', a) != VoteOf(t, d', a) ::
          && a == s.sender
          && d' == d
          && ctx.isMemberOf(a, t'.candidateVotes[d].groupId)
          && (s.statement.Seconded? ==>
                && VoteOf(t', d, a) == Some(Issued(s.signature))
                && ProposalOf(t', a) == Some(Proposal(d, s.signature)))
          && (s.statement.Valid? ==> VoteOf(t', d, a) == Some(Explicit(s.signature))))
  }

  /** Casting a vote touches no proposal and at most the voter's own vote. */
  lemma CastVoteFrame(ctx: Context, t: Tables, from: AuthorityId, d: Digest, vote: ValidityVote)
    ensures var (t', r) := CastVote(ctx, t, from, d, vote);
      && t'.authorityData == t.authorityData && t'.misbehavior == t.misbehavior
      && t'.candidateVotes.Keys == t.candidateVotes.Keys
      && (forall d' | d' in t.candidateVotes ::
            && t'.candidateVotes[d'].candidate == t.candidateVotes[d'].candidate
            && t'.candidateVotes[d'].groupId == t.candidateVotes[d'].groupId)
  {
  }

  lemma CastVoteVotes(ctx: Context, t: Tables, from: AuthorityId, d: Digest, vote: ValidityVote)
    ensures var (t', r) := CastVote(ctx, t, from, d, vote);
      && (forall d', a | d' != d || a != from :: VoteOf(t', d', a) == VoteOf(t, d', a))
      && (VoteOf(t', d, from) != VoteOf(t, d, from) ==>
            && VoteOf(t, d, from).None? && VoteOf(t', d, from) == Some(vote)
            && d in t.candidateVotes && ctx.isMemberOf(from, t.candidateVotes[d].groupId))
      && (vote.Issued? && d in t.candidateVotes && !r.Panicked? ==> VoteOf(t', d, from).Some?)
  {
  }

  lemma VoteEffect(ctx: Context, t: Tables, s: SignedStatement)
    requires s.statement.Valid?
    ensures Effect(ctx, t, s, CastVote(ctx, t, s.sender, About(ctx, s), Explicit(s.signature)).0)
  {
    hide CastVote, VoteOf;
    CastVoteFrame(ctx, t, s.sender, About(ctx, s), Explicit(s.signature));
    CastVoteVotes(ctx, t, s.sender, About(ctx, s), Explicit(s.signature));
  }

  /** A first proposal adds an entry without votes if there is none yet, and changes no vote. */
  lemma ProposeFrame(ctx: Context, t: Tables, a: AuthorityId, c: Candidate, s: Signature)
    ensures var t', d := Propose(ctx, t, a, c, s), ctx.digestOf(c);
      && t'.misbehavior == t.misbehavior
      && (forall d', x :: VoteOf(t', d', x) == VoteOf(t, d', x))
      && (forall x :: ProposalOf(t', x) == if x == a then Some(Proposal(d, s)) else ProposalOf(t, x))
      && t'.candidateVotes.Keys == t.candidateVotes.Keys + {d}
      && (forall d' | d' in t.candidateVotes :: t'.candidateVotes[d'] == t.candidateVotes[d'])
      && (d !in t.candidateVotes ==> t'.candidateVotes[d] == CandidateData(ctx.groupOf(c), c, map[]))
  {
  }

  /** The first proposal of an authority. */
  lemma FirstProposalEffect(ctx: Context, t: Tables, s: SignedStatement)
    requires s.statement.Seconded? && ProposalOf(t, s.sender).None?
    requires ctx.isMemberOf(s.sender, ctx.groupOf(s.statement.candidate))
    requires !SecondCandidate(ctx, t, s.sender, s.statement.candidate, s.signature).1.Panicked?
    ensures Effect(ctx, t, s, SecondCandidate(ctx, t, s.sender, s.statement.candidate, s.signature).0)
  {
    hide CastVote, Propose, VoteOf;
    var a, c, d := s.sender, s.statement.candidate, About(ctx, s);
    var t1 := Propose(ctx, t, a, c, s.signature);
    ProposeFrame(ctx, t, a, c, s.signature);
    CastVoteFrame(ctx, t1, a, d, Issued(s.signature));
    CastVoteVotes(ctx, t1, a, d, Issued(s.signature));
    var t' := SecondCandidate(ctx, t, a, c, s.signature).0;
    assert t' == CastVote(ctx, t1, a, d, Issued(s.signature)).0;
    assert forall x :: ProposalOf(t', x) == ProposalOf(t1, x);
    hide SecondCandidate, ProposalOf;
    Unvoted(t, d, a);
  }

  lemma Unvoted(t: Tables, d: Digest, a: AuthorityId)
    ensures d !in t.candidateVotes ==> VoteOf(t, d, a).None?
  {
  }

  /** A proposal on a digest no one has proposed yet is accepted. */
  lemma FirstSeenEffect(ctx: Context, t: Tables, s: SignedStatement)
    requires s.statement.Seconded? && ProposalOf(t, s.sender).None?
    requires ctx.isMemberOf(s.sender, ctx.groupOf(s.statement.candidate))
    requires About(ctx, s) !in t.candidateVotes
    ensures Effect(ctx, t, s, SecondCandidate(ctx, t, s.sender, s.statement.candidate, s.signature).0)
    ensures SecondCandidate(ctx, t, s.sender, s.statement.candidate, s.signature).1.Accepted?
  {
    ProposeFrame(ctx, t, s.sender, s.statement.candidate, s.signature);
    FirstProposalEffect(ctx, t, s);
    hide Effect, Propose;
  }

  lemma SecondEffect(ctx: Context, t: Tables, s: SignedStatement)
    requires WellFormed(ctx, t) && s.statement.Seconded?
    requires !SecondCandidate(ctx, t, s.sender, s.statement.candidate, s.signature).1.Panicked?
    ensures Effect(ctx, t, s, SecondCandidate(ctx, t, s.sender, s.statement.candidate, s.signature).0)
  {
    var a, c := s.sender, s.statement.candidate;
    if ctx.isMemberOf(a, ctx.groupOf(c)) && ProposalOf(t, a).None? {
      FirstProposalEffect(ctx, t, s);
    } else {
      assert SecondCandidate(ctx, t, a, c, s.signature).0 == t;
    }
  }

  lemma FilingKeepsEffect(ctx: Context, t: Tables, s: SignedStatement, t': Tables, m: Misbehavior)
    requires Effect(ctx, t, s, t')
    ensures Effect(ctx, t, s, File(t', s.sender, m))
  {
  }

  lemma ImportEffect(ctx: Context, t: Tables, s: SignedStatement)
    requires WellFormed(ctx, t)
    requires !ImportStatement(ctx, t, s).1.Panicked?
    ensures Effect(ctx, t, s, ImportStatement(ctx, t, s).0)
  {
    var (t', r) :=
      match s.statement
      case Seconded(c) => SecondCandidate(ctx, t, s.sender, c, s.signature)
      case Valid(d) => CastVote(ctx, t, s.sender, d, Explicit(s.signature));
    if s.statement.Valid? {
      VoteEffect(ctx, t, s);
    } else {
      SecondEffect(ctx, t, s);
    }
    assert Effect(ctx, t, s, t');
    if r.Faulted? {
      FilingKeepsEffect(ctx, t, s, t', r.misbehavior);
    }
  }

  lemma EffectKeepsBacking(ctx: Context, evs: seq<Event>, t: Tables, s: SignedStatement, t': Tables)
    requires Backed(ctx, evs, t) && Effect(ctx, t, s, t')
    ensures Backed(ctx, evs + [Import(s)], t')
  {
  }

  lemma EffectKeepsForm(ctx: Context, t: Tables, s: SignedStatement, t': Tables)
    requires WellFormed(ctx, t) && Effect(ctx, t, s, t')
    ensures EntriesMatch(ctx, t') && ProposalsTracked(t') && VotesAuthorized(ctx, t')
  {
  }

  lemma SecondFilesNothing(ctx: Context, t: Tables, a: AuthorityId, c: Candidate, s: Signature)
    ensures SecondCandidate(ctx, t, a, c, s).0.misbehavior == t.misbehavior
  {
    hide CastVote, Propose;
    var t1 := Propose(ctx, t, a, c, s);
    ProposeFrame(ctx, t, a, c, s);
    CastVoteFrame(ctx, t, a, ctx.digestOf(c), Issued(s));
    CastVoteFrame(ctx, t1, a, ctx.digestOf(c), Issued(s));
  }

  lemma ImportFiles(ctx: Context, t: Tables, s: SignedStatement)
    ensures var (t', r) := ImportStatement(ctx, t, s);
      t'.misbehavior == if r.Faulted? then File(t, s.sender, r.misbehavior).misbehavior else t.misbehavior
  {
    hide CastVote, SecondCandidate;
    match s.statement {
      case Valid(d) => CastVoteFrame(ctx, t, s.sender, d, Explicit(s.signature));
      case Seconded(c) => SecondFilesNothing(ctx, t, s.sender, c, s.signature);
    }
  }

  lemma ImportKeeps(ctx: Context, evs: seq<Event>, t: Tables, s: SignedStatement)
    requires WellFormed(ctx, t) && Backed(ctx, evs, t)
    requires !ImportStatement(ctx, t, s).1.Panicked?
    ensures WellFormed(ctx, ImportStatement(ctx, t, s).0)
    ensures Backed(ctx, evs + [Import(s)], ImportStatement(ctx, t, s).0)
    ensures Grows(t, ImportStatement(ctx, t, s).0)
  {
    var t' := ImportStatement(ctx, t, s).0;
    ImportEffect(ctx, t, s);
    EffectKeepsBacking(ctx, evs, t, s, t');
    EffectKeepsForm(ctx, t, s, t');
    assert ListsNonEmpty(t') by {
      ImportFiles(ctx, t, s);
    }
  }

  lemma DrainKeeps(ctx: Context, evs: seq<Event>, t: Tables)
    requires WellFormed(ctx, t) && Backed(ctx, evs, t)
    ensures WellFormed(ctx, t.(misbehavior := map[]))
    ensures Backed(ctx, evs + [Drain], t.(misbehavior := map[]))
    ensures Grows(t, t.(misbehavior := map[]))
  {
    BackedMonotone(ctx, evs, t, Drain);
    var t' := t.(misbehavior := map[]);
    assert forall d, a :: VoteOf(t', d, a) == VoteOf(t, d, a);
    assert forall a :: ProposalOf(t', a) == ProposalOf(t, a);
    forall d | d in t'.candidateVotes
      ensures exists a :: VoteOf(t', d, a).Some? && VoteOf(t', d, a).value.Issued?
    {
      var a :| VoteOf(t, d, a).Some? && VoteOf(t, d, a).value.Issued?;
      assert VoteOf(t', d, a) == VoteOf(t, d, a);
    }
  }

  lemma StepKeeps(ctx: Context, evs: seq<Event>, t: Tables, e: Event)
    requires WellFormed(ctx, t) && Backed(ctx, evs, t) && Apply(ctx, t, e).Some?
    ensures WellFormed(ctx, Apply(ctx, t, e).value)
    ensures Backed(ctx, evs + [e], Apply(ctx, t, e).value)
    ensures Grows(t, Apply(ctx, t, e).value)
  {
    match e {
      case Drain => DrainKeeps(ctx, evs, t);
      case Import(s) => ImportKeeps(ctx, evs, t, s);
    }
  }

  /** In every run that has not panicked, the table is well formed and truthful. */
  lemma {:induction false} RunInvariant(ctx: Context, evs: seq<Event>)
    requires Run(ctx, evs).Some?
    ensures WellFormed(ctx, Run(ctx, evs).value)
    ensures Backed(ctx, evs, Run(ctx, evs).value)
  {
    if evs != [] {
      var before, e := evs[..|evs| - 1], evs[|evs| - 1];
      assert evs == before + [e];
      RunInvariant(ctx, before);
      StepKeeps(ctx, before, Run(ctx, before).value, e);
    }
  }

  lemma GrowsTransitive(t1: Tables, t2: Tables, t3: Tables)
    requires Grows(t1, t2) && Grows(t2, t3)
    ensures Grows(t1, t3)
  {
  }

  /** Candidates, proposals and votes only ever accumulate. */
  lemma {:induction false} RunGrows(ctx: Context, evs: seq<Event>, more: seq<Event>)
    requires Run(ctx, evs + more).Some?
    ensures Run(ctx, evs).Some?
    ensures Grows(Run(ctx, evs).value, Run(ctx, evs + more).value)
    decreases |more|
  {
    if more == [] {
      assert evs + more == evs;
    } else {
      var all, less := evs + more, more[..|more| - 1];
      assert all[..|all| - 1] == evs + less;
      RunGrows(ctx, evs, less);
      RunInvariant(ctx, evs + less);
      StepKeeps(ctx, evs + less, Run(ctx, evs + less).value, more[|more| - 1]);
      GrowsTransitive(Run(ctx, evs).value, Run(ctx, evs + less).value, Run(ctx, all).value);
    }
  }

  /**
   Across the whole table an authority holds at most one issued vote, and it carries
   the digest and signature of the authority's stored proposal.
   */
  lemma {:induction false} OneIssuedVote(ctx: Context, evs: seq<Event>, a: AuthorityId, d1: Digest, d2: Digest)
    requires Run(ctx, evs).Some?
    ensures var t := Run(ctx, evs).value;
      VoteOf(t, d1, a).Some? && VoteOf(t, d1, a).value.Issued? ==>
        && ProposalOf(t, a) == Some(Proposal(d1, VoteOf(t, d1, a).value.signature))
        && (VoteOf(t, d2, a).Some? && VoteOf(t, d2, a).value.Issued? ==> d1 == d2)
  {
    RunInvariant(ctx, evs);
  }

  /** The seconding behind a stored proposal. */
  lemma ProposalStatement(ctx: Context, evs: seq<Event>, a: AuthorityId) returns (s: SignedStatement)
    requires Run(ctx, evs).Some? && ProposalOf(Run(ctx, evs).value, a).Some?
    ensures Submitted(evs, s) && s.sender == a && s.statement.Seconded?
    ensures ctx.isMemberOf(a, ctx.groupOf(s.statement.candidate))
    ensures ProposalOf(Run(ctx, evs).value, a) == Some(Proposal(About(ctx, s), s.signature))
  {
    RunInvariant(ctx, evs);
    hide Run;
    var p := ProposalOf(Run(ctx, evs).value, a).value;
    assert SecondedBy(ctx, evs, a, p.digest, p.signature);
    var c :| Submitted(evs, SignedStatement(Seconded(c), p.signature, a))
      && ctx.digestOf(c) == p.digest && ctx.isMemberOf(a, ctx.groupOf(c));
    s := SignedStatement(Seconded(c), p.signature, a);
  }

  /** The statement behind a vote. */
  lemma VoteStatement(ctx: Context, evs: seq<Event>, d: Digest, a: AuthorityId) returns (s: SignedStatement)
    requires Run(ctx, evs).Some? && VoteOf(Run(ctx, evs).value, d, a).Some?
    ensures Submitted(evs, s) && s.sender == a && About(ctx, s) == d
    ensures VoteOf(Run(ctx, evs).value, d, a).value ==
            if s.statement.Seconded? then Issued(s.signature) else Explicit(s.signature)
  {
    RunInvariant(ctx, evs);
    hide Run;
    var v := VoteOf(Run(ctx, evs).value, d, a).value;
    if v.Issued? {
      s := ProposalStatement(ctx, evs, a);
    } else {
      s := SignedStatement(Valid(d), v.signature, a);
    }
  }

  // ---- The two hand-written arguments that a panic cannot happen ----

  /** The stored proposal's candidate is always found, in every run and every context. */
  lemma {:induction false} ProposalExists(ctx: Context, evs: seq<Event>, a: AuthorityId)
    requires Run(ctx, evs).Some? && ProposalOf(Run(ctx, evs).value, a).Some?
    ensures ProposalOf(Run(ctx, evs).value, a).value.digest in Run(ctx, evs).value.candidateVotes
  {
    RunInvariant(ctx, evs);
    var t := Run(ctx, evs).value;
    assert VoteOf(t, ProposalOf(t, a).value.digest, a).Some?;
  }

  /** A member of one candidate's group is a member of any populated group of equal digest. */
  ghost predicate MembershipFollowsDigest(ctx: Context) {
    forall c1, c2, a, b |
      && ctx.digestOf(c1) == ctx.digestOf(c2)
      && ctx.isMemberOf(b, ctx.groupOf(c1))
      && ctx.isMemberOf(a, ctx.groupOf(c2)) ::
      ctx.isMemberOf(a, ctx.groupOf(c1))
  }

  /** An implicit vote passes the second membership check. */
  lemma {:induction false} IssuerMayVote(ctx: Context, evs: seq<Event>, a: AuthorityId, c: Candidate)
    requires MembershipFollowsDigest(ctx) && Run(ctx, evs).Some?
    requires ctx.isMemberOf(a, ctx.groupOf(c)) && ctx.digestOf(c) in Run(ctx, evs).value.candidateVotes
    ensures ctx.isMemberOf(a, Run(ctx, evs).value.candidateVotes[ctx.digestOf(c)].groupId)
  {
    RunInvariant(ctx, evs);
    var c1 := Run(ctx, evs).value.candidateVotes[ctx.digestOf(c)].candidate;
    assert Introduced(ctx, evs, c1);
    var b, s1 :| Submitted(evs, SignedStatement(Seconded(c1), s1, b)) && ctx.isMemberOf(b, ctx.groupOf(c1));
  }

  lemma {:induction false} ImportDoesNotPanic(ctx: Context, evs: seq<Event>, s: SignedStatement)
    requires MembershipFollowsDigest(ctx) && Run(ctx, evs).Some?
    ensures !ImportStatement(ctx, Run(ctx, evs).value, s).1.Panicked?
  {
    var t := Run(ctx, evs).value;
    if s.statement.Seconded? && ctx.isMemberOf(s.sender, ctx.groupOf(s.statement.candidate)) {
      if ProposalOf(t, s.sender).Some? {
        ProposalExists(ctx, evs, s.sender);
      }
      if About(ctx, s) in t.candidateVotes {
        IssuerMayVote(ctx, evs, s.sender, s.statement.candidate);
      }
    }
  }

  lemma {:induction false} NoPanic(ctx: Context, evs: seq<Event>)
    requires MembershipFollowsDigest(ctx)
    ensures Run(ctx, evs).Some?
  {
    if evs != [] {
      NoPanic(ctx, evs[..|evs| - 1]);
      if evs[|evs| - 1].Import? {
        ImportDoesNotPanic(ctx, evs[..|evs| - 1], evs[|evs| - 1].statement);
      }
    }
  }

  /** Two imports that panic, given two candidates on which `MembershipFollowsDigest` fails. */
  lemma PanickingRun(ctx: Context, c1: Candidate, c2: Candidate, a: AuthorityId, b: AuthorityId)
    requires ctx.digestOf(c1) == ctx.digestOf(c2)
    requires ctx.isMemberOf(b, ctx.groupOf(c1)) && ctx.isMemberOf(a, ctx.groupOf(c2))
    requires !ctx.isMemberOf(a, ctx.groupOf(c1))
    ensures Run(ctx, [Import(SignedStatement(Seconded(c1), Signature(0), b)),
                      Import(SignedStatement(Seconded(c2), Signature(0), a))]) == None
  {
    var s1 := SignedStatement(Seconded(c1), Signature(0), b);
    var s2 := SignedStatement(Seconded(c2), Signature(0), a);
    var evs := [Import(s1), Import(s2)];
    assert evs[..1] == [Import(s1)] && evs[..1][..0] == [];
    assert Run(ctx, []) == Some(EMPTY);
    FirstSeenEffect(ctx, EMPTY, s1);
    var t := ImportStatement(ctx, EMPTY, s1).0;
    assert Run(ctx, evs[..1]) == Some(t);
    assert t.candidateVotes[ctx.digestOf(c1)].groupId == ctx.groupOf(c1);
    assert ProposalOf(t, a) == None;
  }

  /** No run panics exactly when group membership follows from the digest. */
  lemma PanicFreeExactly(ctx: Context)
    ensures (forall evs :: Run(ctx, evs).Some?) <==> MembershipFollowsDigest(ctx)
  {
    if MembershipFollowsDigest(ctx) {
      forall evs ensures Run(ctx, evs).Some? {
        NoPanic(ctx, evs);
      }
    } else {
      var c1, c2, a, b :|
        && ctx.digestOf(c1) == ctx.digestOf(c2)
        && ctx.isMemberOf(b, ctx.groupOf(c1))
        && ctx.isMemberOf(a, ctx.groupOf(c2))
        && !ctx.isMemberOf(a, ctx.groupOf(c1));
      PanickingRun(ctx, c1, c2, a, b);
    }
  }
}

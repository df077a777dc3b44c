/**
 What an accusation is worth: every filed misbehavior consists of statements its
 authority really signed and that really clash, and seconding two candidates is
 always filed.
 */
module StatementEvidence {
  import opened Options
  import opened Statements
  import opened StatementTable
  import opened StatementRuns

  /** The sender may not make this statement: the candidate belongs to another group. */
  ghost predicate OutOfGroup(ctx: Context, evs: seq<Event>, s: SignedStatement) {
    match s.statement
    case Seconded(c) => !ctx.isMemberOf(s.sender, ctx.groupOf(c))
    case Valid(d) =>
      exists c ::
        && Introduced(ctx, evs, c)
        && ctx.digestOf(c) == d
        && !ctx.isMemberOf(s.sender, ctx.groupOf(c))
  }

  ghost predicate InGroupSeconding(ctx: Context, s: SignedStatement) {
    s.statement.Seconded? && ctx.isMemberOf(s.sender, ctx.groupOf(s.statement.candidate))
  }

  /** All of the evidence was submitted by `a`, and it shows what it is filed as. */
  ghost predicate Genuine(ctx: Context, evs: seq<Event>, a: AuthorityId, m: Misbehavior) {
    && (forall s | s in Evidence(a, m) :: s.sender == a && Submitted(evs, s))
    && match m {
         case UnauthorizedStatement(s) => OutOfGroup(ctx, evs, s)
         case MultipleCandidates(c1, _, c2, _) =>
           && ctx.digestOf(c1) != ctx.digestOf(c2)
           && ctx.isMemberOf(a, ctx.groupOf(c1))
           && ctx.isMemberOf(a, ctx.groupOf(c2))
         case ValidityDoubleVote(c, _, d, _) => ctx.digestOf(c) == d
         case DoubleSigned(double) => double.first != double.second
       }
  }

  ghost predicate AllGenuine(ctx: Context, evs: seq<Event>, t: Tables) {
    forall a, i | a in t.misbehavior && 0 <= i < |t.misbehavior[a]| ::
      Genuine(ctx, evs, a, t.misbehavior[a][i])
  }

  /** No authority belongs to the groups of two candidates that share a digest. */
  ghost predicate DigestsBindMembers(ctx: Context) {
    forall c1, c2, a |
      && ctx.digestOf(c1) == ctx.digestOf(c2)
      && ctx.isMemberOf(a, ctx.groupOf(c1))
      && ctx.isMemberOf(a, ctx.groupOf(c2)) ::
      c1 == c2
  }

  lemma GenuineMonotone(ctx: Context, evs: seq<Event>, e: Event, a: AuthorityId, m: Misbehavior)
    requires Genuine(ctx, evs, a, m)
    ensures Genuine(ctx, evs + [e], a, m)
  {
  }

  /** The candidate stored under an authority's own proposal is the one it seconded. */
  lemma {:induction false} ProposalIsStored(ctx: Context, evs: seq<Event>, a: AuthorityId)
    requires DigestsBindMembers(ctx) && Run(ctx, evs).Some?
    requires ProposalOf(Run(ctx, evs).value, a).Some?
    ensures var t := Run(ctx, evs).value; var p := ProposalOf(t, a).value;
      && p.digest in t.candidateVotes
      && ctx.digestOf(t.candidateVotes[p.digest].candidate) == p.digest
      && ctx.isMemberOf(a, ctx.groupOf(t.candidateVotes[p.digest].candidate))
      && Submitted(evs, SignedStatement(Seconded(t.candidateVotes[p.digest].candidate), p.signature, a))
  {
    RunInvariant(ctx, evs);
    var t := Run(ctx, evs).value;
    var p := ProposalOf(t, a).value;
    assert VoteOf(t, p.digest, a).Some?;
    assert SecondedBy(ctx, evs, a, p.digest, p.signature);
    var c :| Submitted(evs, SignedStatement(Seconded(c), p.signature, a))
      && ctx.digestOf(c) == p.digest && ctx.isMemberOf(a, ctx.groupOf(c));
    assert c == t.candidateVotes[p.digest].candidate;
  }

  /** The statement behind a vote on candidate `c`, stored under digest `d`. */
  function StatementBehind(c: Candidate, d: Digest, a: AuthorityId, v: ValidityVote): SignedStatement {
    SignedStatement(if v.Issued? then Seconded(c) else Valid(d), v.signature, a)
  }

  lemma ClashGenuine(ctx: Context, evs: seq<Event>, c: Candidate, d: Digest, a: AuthorityId,
                     earlier: ValidityVote, later: ValidityVote)
    requires earlier != later && ctx.digestOf(c) == d
    requires Submitted(evs, StatementBehind(c, d, a, earlier))
    requires Submitted(evs, StatementBehind(c, d, a, later))
    ensures Genuine(ctx, evs, a, Clash(c, d, earlier, later))
  {
  }

  lemma {:induction false} VoteBehind(ctx: Context, evs: seq<Event>, d: Digest, a: AuthorityId)
    requires DigestsBindMembers(ctx) && Run(ctx, evs).Some? && VoteOf(Run(ctx, evs).value, d, a).Some?
    ensures var t := Run(ctx, evs).value;
      && ctx.digestOf(t.candidateVotes[d].candidate) == d
      && Submitted(evs, StatementBehind(t.candidateVotes[d].candidate, d, a, VoteOf(t, d, a).value))
  {
    RunInvariant(ctx, evs);
    if VoteOf(Run(ctx, evs).value, d, a).value.Issued? {
      ProposalIsStored(ctx, evs, a);
    }
  }

  lemma UnauthorizedGenuine(ctx: Context, evs: seq<Event>, s: SignedStatement)
    requires Run(ctx, evs).Some? && s.statement.Valid?
    requires s.statement.digest in Run(ctx, evs).value.candidateVotes
    requires !ctx.isMemberOf(s.sender, Run(ctx, evs).value.candidateVotes[s.statement.digest].groupId)
    ensures Genuine(ctx, evs + [Import(s)], s.sender, UnauthorizedStatement(s))
  {
    RunInvariant(ctx, evs);
    var evs' := evs + [Import(s)];
    var c := Run(ctx, evs).value.candidateVotes[s.statement.digest].candidate;
    assert Submitted(evs', s);
    assert Introduced(ctx, evs, c);
    var b, sig :| Submitted(evs, SignedStatement(Seconded(c), sig, b)) && ctx.isMemberOf(b, ctx.groupOf(c));
    assert Submitted(evs', SignedStatement(Seconded(c), sig, b));
    assert Introduced(ctx, evs', c);
  }

  lemma StatementBehindVote(ctx: Context, evs: seq<Event>, s: SignedStatement, vote: ValidityVote)
    requires DigestsBindMembers(ctx) && Run(ctx, evs).Some? && About(ctx, s) in Run(ctx, evs).value.candidateVotes
    requires ctx.isMemberOf(s.sender, Run(ctx, evs).value.candidateVotes[About(ctx, s)].groupId)
    requires vote == (if s.statement.Seconded? then Issued(s.signature) else Explicit(s.signature))
    requires s.statement.Seconded? ==> InGroupSeconding(ctx, s)
    ensures var c := Run(ctx, evs).value.candidateVotes[About(ctx, s)].candidate;
      StatementBehind(c, About(ctx, s), s.sender, vote) == s
  {
    hide Run, Backed;
    RunInvariant(ctx, evs);
  }

  /** Accusations raised by a vote cast on an unchanged set of candidates. */
  lemma VoteFaultGenuine(ctx: Context, evs: seq<Event>, s: SignedStatement, vote: ValidityVote)
    requires DigestsBindMembers(ctx) && Run(ctx, evs).Some?
    requires vote == (if s.statement.Seconded? then Issued(s.signature) else Explicit(s.signature))
    requires s.statement.Seconded? ==> InGroupSeconding(ctx, s)
    requires CastVote(ctx, Run(ctx, evs).value, s.sender, About(ctx, s), vote).1.Faulted?
    ensures Genuine(ctx, evs + [Import(s)], s.sender,
                    CastVote(ctx, Run(ctx, evs).value, s.sender, About(ctx, s), vote).1.misbehavior)
  {
    hide Run, DigestsBindMembers, Genuine, Clash, StatementBehind;
    var t, a, d := Run(ctx, evs).value, s.sender, About(ctx, s);
    var data := t.candidateVotes[d];
    if !ctx.isMemberOf(a, data.groupId) {
      assert s == SignedStatement(Valid(d), s.signature, a);
      UnauthorizedGenuine(ctx, evs, s);
    } else {
      VoteBehind(ctx, evs, d, a);
      var earlier := data.validityVotes[a];
      assert VoteOf(t, d, a) == Some(earlier);
      StatementBehindVote(ctx, evs, s, vote);
      ClashGenuine(ctx, evs + [Import(s)], data.candidate, d, a, earlier, vote);
    }
  }

  lemma FaultGenuine(ctx: Context, evs: seq<Event>, s: SignedStatement)
    requires DigestsBindMembers(ctx) && Run(ctx, evs).Some?
    requires ImportStatement(ctx, Run(ctx, evs).value, s).1.Faulted?
    ensures Genuine(ctx, evs + [Import(s)], s.sender,
                    ImportStatement(ctx, Run(ctx, evs).value, s).1.misbehavior)
  {
    var t, a := Run(ctx, evs).value, s.sender;
    assert Submitted(evs + [Import(s)], s);
    match s.statement {
      case Valid(d) => VoteFaultGenuine(ctx, evs, s, Explicit(s.signature));
      case Seconded(c) =>
        assert s == SignedStatement(Seconded(c), s.signature, a);
        if ctx.isMemberOf(a, ctx.groupOf(c)) {
          var p := ProposalOf(t, a);
          if p.Some? && p.value.digest != ctx.digestOf(c) {
            ProposalIsStored(ctx, evs, a);
            var c1 := t.candidateVotes[p.value.digest].candidate;
            assert Submitted(evs + [Import(s)], SignedStatement(Seconded(c1), p.value.signature, a));
          } else {
            if p.None? && ctx.digestOf(c) !in t.candidateVotes {
              FirstSeenEffect(ctx, t, s);
            } else {
              VoteFaultGenuine(ctx, evs, s, Issued(s.signature));
            }
          }
        }
    }
  }

  lemma {:induction false} EvidenceSound(ctx: Context, evs: seq<Event>)
    requires DigestsBindMembers(ctx) && Run(ctx, evs).Some?
    ensures AllGenuine(ctx, evs, Run(ctx, evs).value)
  {
    if evs != [] {
      var before, e := evs[..|evs| - 1], evs[|evs| - 1];
      assert evs == before + [e];
      EvidenceSound(ctx, before);
      var t, t' := Run(ctx, before).value, Run(ctx, evs).value;
      if e.Import? {
        var s, r := e.statement, ImportStatement(ctx, t, e.statement).1;
        ImportFiles(ctx, t, s);
        if r.Faulted? {
          FaultGenuine(ctx, before, s);
        }
        forall a, i | a in t'.misbehavior && 0 <= i < |t'.misbehavior[a]|
          ensures Genuine(ctx, evs, a, t'.misbehavior[a][i])
        {
          if a in t.misbehavior && i < |t.misbehavior[a]| {
            assert t'.misbehavior[a][i] == t.misbehavior[a][i];
            GenuineMonotone(ctx, before, e, a, t.misbehavior[a][i]);
          }
        }
      }
    }
  }

  /** Two imports by one authority that put a signature on a candidate it never signed. */
  lemma MisattributingRun(ctx: Context, c1: Candidate, c2: Candidate, a: AuthorityId)
    requires ctx.digestOf(c1) == ctx.digestOf(c2) && c1 != c2
    requires ctx.isMemberOf(a, ctx.groupOf(c1)) && ctx.isMemberOf(a, ctx.groupOf(c2))
    ensures var evs := [Import(SignedStatement(Seconded(c1), Signature(0), a)),
                        Import(SignedStatement(Seconded(c2), Signature(1), a))];
      && Run(ctx, evs).Some?
      && !AllGenuine(ctx, evs, Run(ctx, evs).value)
  {
    var s1 := SignedStatement(Seconded(c1), Signature(0), a);
    var s2 := SignedStatement(Seconded(c2), Signature(1), a);
    var evs := [Import(s1), Import(s2)];
    assert evs[..1] == [Import(s1)] && evs[..1][..0] == [];
    assert Run(ctx, []) == Some(EMPTY);
    FirstSeenEffect(ctx, EMPTY, s1);
    var t := ImportStatement(ctx, EMPTY, s1).0;
    assert Run(ctx, evs[..1]) == Some(t);
    assert VoteOf(t, ctx.digestOf(c1), a) == Some(Issued(Signature(0)));
    assert ProposalOf(t, a) == Some(Proposal(ctx.digestOf(c1), Signature(0)));
    var m := DoubleSigned(OnSeconded(c1, Signature(0), Signature(1)));
    assert ImportStatement(ctx, t, s2).1 == Faulted(m);
    var t' := Run(ctx, evs).value;
    assert t'.misbehavior[a] == [m] && t'.misbehavior[a][0] == m;
    assert SignedStatement(Seconded(c1), Signature(1), a) in Evidence(a, m);
    assert !Submitted(evs, SignedStatement(Seconded(c1), Signature(1), a));
    assert !Genuine(ctx, evs, a, m);
  }

  /** Accusations are genuine in every run exactly when digests bind members. */
  lemma EvidenceSoundExactly(ctx: Context)
    ensures (forall evs | Run(ctx, evs).Some? :: AllGenuine(ctx, evs, Run(ctx, evs).value))
            <==> DigestsBindMembers(ctx)
  {
    if DigestsBindMembers(ctx) {
      forall evs | Run(ctx, evs).Some? ensures AllGenuine(ctx, evs, Run(ctx, evs).value) {
        EvidenceSound(ctx, evs);
      }
    } else {
      var c1, c2, a :|
        && ctx.digestOf(c1) == ctx.digestOf(c2)
        && ctx.isMemberOf(a, ctx.groupOf(c1))
        && ctx.isMemberOf(a, ctx.groupOf(c2))
        && c1 != c2;
      MisattributingRun(ctx, c1, c2, a);
    }
  }

  /** `a` signed no two conflicting statements and none outside its group. */
  ghost predicate Honest(ctx: Context, evs: seq<Event>, a: AuthorityId) {
    && (forall s1, s2 | Submitted(evs, s1) && Submitted(evs, s2) && s1.sender == a :: !Conflict(ctx, s1, s2))
    && (forall s | Submitted(evs, s) && s.sender == a :: !OutOfGroup(ctx, evs, s))
  }

  /** `a` signed two conflicting statements, or one outside its group. */
  ghost predicate Culpable(ctx: Context, evs: seq<Event>, a: AuthorityId) {
    || (exists s1, s2 :: Submitted(evs, s1) && Submitted(evs, s2) && s1.sender == a && Conflict(ctx, s1, s2))
    || (exists s :: Submitted(evs, s) && s.sender == a && OutOfGroup(ctx, evs, s))
  }

  lemma OutOfGroupMonotone(ctx: Context, evs: seq<Event>, e: Event, s: SignedStatement)
    requires OutOfGroup(ctx, evs, s)
    ensures OutOfGroup(ctx, evs + [e], s)
  {
    if s.statement.Valid? {
      var c :| Introduced(ctx, evs, c) && ctx.digestOf(c) == s.statement.digest
        && !ctx.isMemberOf(s.sender, ctx.groupOf(c));
      var b, sig :| Submitted(evs, SignedStatement(Seconded(c), sig, b)) && ctx.isMemberOf(b, ctx.groupOf(c));
      assert Submitted(evs + [e], SignedStatement(Seconded(c), sig, b));
      assert Introduced(ctx, evs + [e], c);
    }
  }

  lemma CulpableMonotone(ctx: Context, evs: seq<Event>, e: Event, a: AuthorityId)
    requires Culpable(ctx, evs, a)
    ensures Culpable(ctx, evs + [e], a)
  {
    hide OutOfGroup, Conflict;
    if s1, s2 :| Submitted(evs, s1) && Submitted(evs, s2) && s1.sender == a && Conflict(ctx, s1, s2) {
      assert Submitted(evs + [e], s1) && Submitted(evs + [e], s2);
    } else {
      var s :| Submitted(evs, s) && s.sender == a && OutOfGroup(ctx, evs, s);
      OutOfGroupMonotone(ctx, evs, e, s);
      assert Submitted(evs + [e], s);
    }
  }

  lemma ConflictCulpable(ctx: Context, evs: seq<Event>, s0: SignedStatement, s: SignedStatement)
    requires Submitted(evs, s0) && s0 != s && s0.sender == s.sender
    requires About(ctx, s0) == About(ctx, s) || (s0.statement.Seconded? && s.statement.Seconded?)
    ensures Culpable(ctx, evs + [Import(s)], s.sender)
  {
    var evs' := evs + [Import(s)];
    assert Submitted(evs', s0) && Submitted(evs', s) && Conflict(ctx, s0, s);
  }

  /** A vote that is faulted clashes with an earlier statement, or is outside the group. */
  lemma {:induction false} VoteFaultCulpable(ctx: Context, evs: seq<Event>, s: SignedStatement, vote: ValidityVote)
    requires Run(ctx, evs).Some?
    requires vote == (if s.statement.Seconded? then Issued(s.signature) else Explicit(s.signature))
    requires CastVote(ctx, Run(ctx, evs).value, s.sender, About(ctx, s), vote).1.Faulted?
    ensures Culpable(ctx, evs + [Import(s)], s.sender)
  {
    hide Run, Genuine, Clash, Culpable;
    var t, a, d := Run(ctx, evs).value, s.sender, About(ctx, s);
    if !ctx.isMemberOf(a, t.candidateVotes[d].groupId) {
      UnauthorizedCulpable(ctx, evs, s);
    } else {
      assert VoteOf(t, d, a) == Some(t.candidateVotes[d].validityVotes[a]);
      var s0 := VoteStatement(ctx, evs, d, a);
      ConflictCulpable(ctx, evs, s0, s);
    }
  }

  lemma {:induction false} UnauthorizedCulpable(ctx: Context, evs: seq<Event>, s: SignedStatement)
    requires Run(ctx, evs).Some? && s.statement.Valid?
    requires s.statement.digest in Run(ctx, evs).value.candidateVotes
    requires !ctx.isMemberOf(s.sender, Run(ctx, evs).value.candidateVotes[s.statement.digest].groupId)
    ensures Culpable(ctx, evs + [Import(s)], s.sender)
  {
    hide Run, OutOfGroup;
    UnauthorizedGenuine(ctx, evs, s);
    assert Submitted(evs + [Import(s)], s);
  }

  /** Whatever is filed, its authority did conflict or leave its group, in every context. */
  lemma {:induction false} FaultCulpable(ctx: Context, evs: seq<Event>, s: SignedStatement)
    requires Run(ctx, evs).Some? && ImportStatement(ctx, Run(ctx, evs).value, s).1.Faulted?
    ensures Culpable(ctx, evs + [Import(s)], s.sender)
  {
    hide Run, CastVote, Culpable, Propose;
    var t, a := Run(ctx, evs).value, s.sender;
    match s.statement {
      case Valid(d) => VoteFaultCulpable(ctx, evs, s, Explicit(s.signature));
      case Seconded(c) =>
        if !ctx.isMemberOf(a, ctx.groupOf(c)) {
          OutsideCulpable(ctx, evs, s);
        } else if ProposalOf(t, a).None? {
          FirstProposalFault(ctx, t, s);
          VoteFaultCulpable(ctx, evs, s, Issued(s.signature));
        } else if ProposalOf(t, a).value.digest == ctx.digestOf(c) {
          VoteFaultCulpable(ctx, evs, s, Issued(s.signature));
        } else {
          var s0 := ProposalStatement(ctx, evs, a);
          ConflictCulpable(ctx, evs, s0, s);
        }
    }
  }

  lemma OutsideCulpable(ctx: Context, evs: seq<Event>, s: SignedStatement)
    requires s.statement.Seconded? && !ctx.isMemberOf(s.sender, ctx.groupOf(s.statement.candidate))
    ensures Culpable(ctx, evs + [Import(s)], s.sender)
  {
    assert Submitted(evs + [Import(s)], s) && OutOfGroup(ctx, evs + [Import(s)], s);
  }

  /** A first proposal is only faulted if its vote would have been without it. */
  lemma FirstProposalFault(ctx: Context, t: Tables, s: SignedStatement)
    requires InGroupSeconding(ctx, s) && ProposalOf(t, s.sender).None?
    requires ImportStatement(ctx, t, s).1.Faulted?
    ensures CastVote(ctx, t, s.sender, About(ctx, s), Issued(s.signature)).1.Faulted?
  {
    ProposeFrame(ctx, t, s.sender, s.statement.candidate, s.signature);
    hide Propose, VoteOf, ProposalOf, Clash;
    if About(ctx, s) !in t.candidateVotes {
      FirstSeenEffect(ctx, t, s);
    }
  }

  lemma {:induction false} FiledIsCulpable(ctx: Context, evs: seq<Event>, a: AuthorityId)
    requires Run(ctx, evs).Some? && a in Run(ctx, evs).value.misbehavior
    ensures Culpable(ctx, evs, a)
  {
    hide Culpable, ImportStatement;
    if evs != [] {
      var before, e := evs[..|evs| - 1], evs[|evs| - 1];
      assert evs == before + [e];
      var t := Run(ctx, before).value;
      if e.Import? {
        ImportFiles(ctx, t, e.statement);
        if a in t.misbehavior {
          FiledIsCulpable(ctx, before, a);
          CulpableMonotone(ctx, before, e, a);
        } else {
          FaultCulpable(ctx, before, e.statement);
        }
      }
    }
  }

  /** Nobody is framed: in every context, an honest authority is never on file. */
  lemma {:induction false} HonestNeverFiled(ctx: Context, evs: seq<Event>, a: AuthorityId)
    requires Run(ctx, evs).Some? && Honest(ctx, evs, a)
    ensures a !in Run(ctx, evs).value.misbehavior
  {
    hide Run, OutOfGroup, Conflict;
    if a in Run(ctx, evs).value.misbehavior {
      FiledIsCulpable(ctx, evs, a);
    }
  }

  // ---- Seconding two candidates is always caught ----

  /** The newest accusation against the sender is `MultipleCandidates`, with `s` as the second one. */
  ghost predicate CaughtBy(t: Tables, s: SignedStatement) {
    && s.sender in t.misbehavior && t.misbehavior[s.sender] != []
    && var m := t.misbehavior[s.sender][|t.misbehavior[s.sender]| - 1];
       m.MultipleCandidates? && s == SignedStatement(Seconded(m.second), m.secondSignature, s.sender)
  }

  /** Event `k` filed `MultipleCandidates` with the candidate `a` seconded at `k` as the second one. */
  ghost predicate CaughtAt(ctx: Context, evs: seq<Event>, k: nat, a: AuthorityId)
    requires k < |evs| && Run(ctx, evs[..k + 1]).Some?
  {
    evs[k].Import? && evs[k].statement.sender == a && CaughtBy(Run(ctx, evs[..k + 1]).value, evs[k].statement)
  }

  lemma PrefixRuns(ctx: Context, evs: seq<Event>, k: nat)
    requires k <= |evs| && Run(ctx, evs).Some?
    ensures Run(ctx, evs[..k]).Some?
    ensures Grows(Run(ctx, evs[..k]).value, Run(ctx, evs).value)
  {
    assert evs[..k] + evs[k..] == evs;
    RunGrows(ctx, evs[..k], evs[k..]);
  }

  lemma PrefixStep(ctx: Context, evs: seq<Event>, k: nat)
    requires k < |evs| && Run(ctx, evs).Some?
    ensures Run(ctx, evs[..k]).Some? && Run(ctx, evs[..k + 1]).Some?
    ensures Run(ctx, evs[..k + 1]) == Apply(ctx, Run(ctx, evs[..k]).value, evs[k])
  {
    hide Run, Apply, Grows;
    PrefixRuns(ctx, evs, k);
    PrefixRuns(ctx, evs, k + 1);
    assert evs[..k + 1] == evs[..k] + [evs[k]];
    RunStep(ctx, evs[..k], evs[k]);
  }

  lemma SecondingOutcome(ctx: Context, t: Tables, s: SignedStatement)
    requires InGroupSeconding(ctx, s)
    requires var p := ProposalOf(t, s.sender); p.Some? ==> p.value.digest in t.candidateVotes
    ensures var (t', r) := ImportStatement(ctx, t, s); var p := ProposalOf(t', s.sender);
      && p.Some?
      && (p.value.digest == About(ctx, s)
          || (r.Faulted? && r.misbehavior.MultipleCandidates?
              && s == SignedStatement(Seconded(r.misbehavior.second), r.misbehavior.secondSignature, s.sender)))
  {
    hide CastVote;
    var c, d, vote := s.statement.candidate, About(ctx, s), Issued(s.signature);
    CastVoteFrame(ctx, t, s.sender, d, vote);
    CastVoteFrame(ctx, Propose(ctx, t, s.sender, c, s.signature), s.sender, d, vote);
  }

  lemma SecondingCaught(ctx: Context, t: Tables, s: SignedStatement)
    requires InGroupSeconding(ctx, s)
    requires var p := ProposalOf(t, s.sender); p.Some? ==> p.value.digest in t.candidateVotes
    ensures var t' := ImportStatement(ctx, t, s).0; var p := ProposalOf(t', s.sender);
      p.Some? && (p.value.digest == About(ctx, s) || CaughtBy(t', s))
  {
    SecondingOutcome(ctx, t, s);
    ImportFiles(ctx, t, s);
    hide ImportStatement;
  }

  /** Importing an in-group seconding leaves it as the proposal, or files the clash. */
  lemma {:induction false} SecondingRecorded(ctx: Context, evs: seq<Event>, k: nat, s: SignedStatement)
    requires Run(ctx, evs).Some? && k < |evs| && evs[k] == Import(s) && InGroupSeconding(ctx, s)
    ensures Run(ctx, evs[..k]).Some? && Run(ctx, evs[..k + 1]).Some?
    ensures var p := ProposalOf(Run(ctx, evs[..k + 1]).value, s.sender);
      && p.Some?
      && (p.value.digest == About(ctx, s) || CaughtAt(ctx, evs, k, s.sender))
  {
    hide Run, ImportStatement, CaughtBy, InGroupSeconding;
    PrefixStep(ctx, evs, k);
    var t := Run(ctx, evs[..k]).value;
    if ProposalOf(t, s.sender).Some? {
      ProposalExists(ctx, evs[..k], s.sender);
    }
    SecondingCaught(ctx, t, s);
  }

  /** Of two in-group secondings with different digests, one is filed as it is imported. */
  lemma {:induction false} EquivocationCaught(ctx: Context, evs: seq<Event>,
                                              i: nat, j: nat, s1: SignedStatement, s2: SignedStatement)
    requires Run(ctx, evs).Some? && i < j < |evs| && evs[i] == Import(s1) && evs[j] == Import(s2)
    requires InGroupSeconding(ctx, s1) && InGroupSeconding(ctx, s2) && s1.sender == s2.sender
    requires About(ctx, s1) != About(ctx, s2)
    ensures Run(ctx, evs[..i + 1]).Some? && Run(ctx, evs[..j + 1]).Some?
    ensures CaughtAt(ctx, evs, i, s1.sender) || CaughtAt(ctx, evs, j, s1.sender)
  {
    SecondingRecorded(ctx, evs, i, s1);
    SecondingRecorded(ctx, evs, j, s2);
    assert evs[..j + 1][..i + 1] == evs[..i + 1];
    PrefixRuns(ctx, evs[..j + 1], i + 1);
    var p := ProposalOf(Run(ctx, evs[..i + 1]).value, s1.sender);
    assert ProposalOf(Run(ctx, evs[..j + 1]).value, s1.sender) == p;
  }

  /** `t'` still holds every accusation `t` holds against `a`, in order. */
  ghost predicate StillFiled(t: Tables, t': Tables, a: AuthorityId) {
    a in t.misbehavior ==> a in t'.misbehavior && t.misbehavior[a] <= t'.misbehavior[a]
  }

  lemma StepKeepsFiled(ctx: Context, t: Tables, e: Event, a: AuthorityId)
    requires e.Import? && Apply(ctx, t, e).Some?
    ensures StillFiled(t, Apply(ctx, t, e).value, a)
  {
    ImportFiles(ctx, t, e.statement);
  }

  lemma StillFiledTransitive(t1: Tables, t2: Tables, t3: Tables, a: AuthorityId)
    requires StillFiled(t1, t2, a) && StillFiled(t2, t3, a)
    ensures StillFiled(t1, t3, a)
  {
  }

  /** Without a drain, accusations stay on file in order. */
  lemma {:induction false} FiledStays(ctx: Context, evs: seq<Event>, more: seq<Event>, a: AuthorityId)
    requires Run(ctx, evs + more).Some? && Run(ctx, evs).Some? && Drain !in more
    ensures StillFiled(Run(ctx, evs).value, Run(ctx, evs + more).value, a)
    decreases |more|
  {
    hide Run, Apply;
    if more == [] {
      assert evs + more == evs;
    } else {
      var less, e := more[..|more| - 1], more[|more| - 1];
      assert evs + more == (evs + less) + [e] && e in more;
      RunStep(ctx, evs + less, e);
      FiledStays(ctx, evs, less, a);
      StepKeepsFiled(ctx, Run(ctx, evs + less).value, e, a);
      StillFiledTransitive(Run(ctx, evs).value, Run(ctx, evs + less).value, Run(ctx, evs + more).value, a);
    }
  }

  ghost predicate Equivocates(ctx: Context, evs: seq<Event>, a: AuthorityId) {
    exists s1, s2 ::
      && Submitted(evs, s1) && Submitted(evs, s2)
      && s1.sender == s2.sender == a
      && InGroupSeconding(ctx, s1) && InGroupSeconding(ctx, s2)
      && About(ctx, s1) != About(ctx, s2)
  }

  ghost predicate FiledMultiple(t: Tables, a: AuthorityId) {
    a in t.misbehavior && exists m :: m in t.misbehavior[a] && m.MultipleCandidates?
  }

  lemma {:induction false} CaughtStays(ctx: Context, evs: seq<Event>, k: nat, a: AuthorityId)
    requires Run(ctx, evs).Some? && Drain !in evs && k < |evs|
    requires Run(ctx, evs[..k + 1]).Some? && CaughtAt(ctx, evs, k, a)
    ensures FiledMultiple(Run(ctx, evs).value, a)
  {
    hide Run;
    assert evs[..k + 1] + evs[k + 1..] == evs;
    FiledStays(ctx, evs[..k + 1], evs[k + 1..], a);
    var filed := Run(ctx, evs[..k + 1]).value.misbehavior[a];
    assert filed[|filed| - 1] in Run(ctx, evs).value.misbehavior[a];
  }

  lemma {:induction false} EquivocatorFiled(ctx: Context, evs: seq<Event>,
                                            i: nat, j: nat, s1: SignedStatement, s2: SignedStatement)
    requires Run(ctx, evs).Some? && Drain !in evs
    requires i < j < |evs| && evs[i] == Import(s1) && evs[j] == Import(s2)
    requires InGroupSeconding(ctx, s1) && InGroupSeconding(ctx, s2) && s1.sender == s2.sender
    requires About(ctx, s1) != About(ctx, s2)
    ensures FiledMultiple(Run(ctx, evs).value, s1.sender)
  {
    EquivocationCaught(ctx, evs, i, j, s1, s2);
    if CaughtAt(ctx, evs, i, s1.sender) {
      CaughtStays(ctx, evs, i, s1.sender);
    } else {
      CaughtStays(ctx, evs, j, s1.sender);
    }
  }

  lemma EquivocatesMonotone(ctx: Context, evs: seq<Event>, e: Event, a: AuthorityId)
    requires Equivocates(ctx, evs, a)
    ensures Equivocates(ctx, evs + [e], a)
  {
    hide InGroupSeconding;
    var s1, s2 :|
      && Submitted(evs, s1) && Submitted(evs, s2)
      && s1.sender == s2.sender == a
      && InGroupSeconding(ctx, s1) && InGroupSeconding(ctx, s2)
      && About(ctx, s1) != About(ctx, s2);
    assert Submitted(evs + [e], s1) && Submitted(evs + [e], s2);
  }

  /** `MultipleCandidates` is only raised against a stored proposal of another digest. */
  lemma MultipleFault(ctx: Context, t: Tables, s: SignedStatement)
    requires ImportStatement(ctx, t, s).1.Faulted? && ImportStatement(ctx, t, s).1.misbehavior.MultipleCandidates?
    ensures InGroupSeconding(ctx, s) && ProposalOf(t, s.sender).Some?
    ensures ProposalOf(t, s.sender).value.digest != About(ctx, s)
  {
    hide Propose;
  }

  lemma {:induction false} MultipleFaultEquivocates(ctx: Context, evs: seq<Event>, s: SignedStatement)
    requires Run(ctx, evs).Some?
    requires var r := ImportStatement(ctx, Run(ctx, evs).value, s).1; r.Faulted? && r.misbehavior.MultipleCandidates?
    ensures Equivocates(ctx, evs + [Import(s)], s.sender)
  {
    hide Run, ImportStatement;
    MultipleFault(ctx, Run(ctx, evs).value, s);
    var s0 := ProposalStatement(ctx, evs, s.sender);
    assert Submitted(evs + [Import(s)], s0) && Submitted(evs + [Import(s)], s);
    assert InGroupSeconding(ctx, s0);
  }

  lemma {:induction false} FiledEquivocates(ctx: Context, evs: seq<Event>, a: AuthorityId)
    requires Run(ctx, evs).Some? && FiledMultiple(Run(ctx, evs).value, a)
    ensures Equivocates(ctx, evs, a)
  {
    hide Equivocates, ImportStatement;
    if evs != [] {
      var before, e := evs[..|evs| - 1], evs[|evs| - 1];
      assert evs == before + [e];
      var t := Run(ctx, before).value;
      if e.Import? {
        ImportFiles(ctx, t, e.statement);
        if FiledMultiple(t, a) {
          FiledEquivocates(ctx, before, a);
          EquivocatesMonotone(ctx, before, e, a);
        } else {
          MultipleFaultEquivocates(ctx, before, e.statement);
        }
      }
    }
  }

  lemma {:induction false} EquivocatorOnFile(ctx: Context, evs: seq<Event>, a: AuthorityId)
    requires Run(ctx, evs).Some? && Drain !in evs && Equivocates(ctx, evs, a)
    ensures FiledMultiple(Run(ctx, evs).value, a)
  {
    hide Run, InGroupSeconding, FiledMultiple;
    var s1, s2 :|
      && Submitted(evs, s1) && Submitted(evs, s2)
      && s1.sender == s2.sender == a
      && InGroupSeconding(ctx, s1) && InGroupSeconding(ctx, s2)
      && About(ctx, s1) != About(ctx, s2);
    var i :| 0 <= i < |evs| && evs[i] == Import(s1);
    var j :| 0 <= j < |evs| && evs[j] == Import(s2);
    if i < j {
      EquivocatorFiled(ctx, evs, i, j, s1, s2);
    } else {
      EquivocatorFiled(ctx, evs, j, i, s2, s1);
    }
  }

  /** Without a drain, exactly the authorities that seconded two digests are filed for it. */
  lemma {:induction false} EquivocationFiledExactly(ctx: Context, evs: seq<Event>, a: AuthorityId)
    requires Run(ctx, evs).Some? && Drain !in evs
    ensures FiledMultiple(Run(ctx, evs).value, a) <==> Equivocates(ctx, evs, a)
  {
    hide *;
    if Equivocates(ctx, evs, a) {
      EquivocatorOnFile(ctx, evs, a);
    }
    if FiledMultiple(Run(ctx, evs).value, a) {
      FiledEquivocates(ctx, evs, a);
    }
  }
}

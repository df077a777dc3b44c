/**
 What the table attests: enough distinct members of the group voted, each with a
 statement it submitted, and the attestation stands for good. That an implicit vote was
 for the very candidate attested holds exactly when digests cannot confuse voters.
 */
module StatementAttestation {
  import opened Options
  import opened Sets
  import opened Statements
  import opened StatementTable
  import opened StatementRuns

  /** `a` submitted a statement on `d` of the kind and with the signature it is listed with. */
  ghost predicate BackedBy(ctx: Context, evs: seq<Event>, d: Digest, a: AuthorityId, v: ValidityAttestation) {
    exists s ::
      && Submitted(evs, s)
      && s.sender == a && s.signature == v.signature
      && About(ctx, s) == d
      && (s.statement.Seconded? <==> v.ByIssuing?)
  }

  ghost function Voters(att: AttestedCandidate): set<AuthorityId> {
    set i | 0 <= i < |att.validityVotes| :: att.validityVotes[i].0
  }

  lemma VoteBacked(ctx: Context, evs: seq<Event>, d: Digest, a: AuthorityId)
    requires Run(ctx, evs).Some? && VoteOf(Run(ctx, evs).value, d, a).Some?
    ensures var t := Run(ctx, evs).value;
      ctx.isMemberOf(a, t.candidateVotes[d].groupId) && BackedBy(ctx, evs, d, a, AttestationOf(VoteOf(t, d, a).value))
  {
    RunInvariant(ctx, evs);
    hide Run;
    var s := VoteStatement(ctx, evs, d, a);
  }

  /**
   An attested candidate was seconded under its digest, lists enough distinct members of
   its group, and each of them submitted a statement on that digest it is listed with.
   */
  lemma {:induction false} AttestationReal(ctx: Context, evs: seq<Event>, d: Digest, att: AttestedCandidate)
    requires Run(ctx, evs).Some? && Attests(ctx, Run(ctx, evs).value, d, Some(att))
    ensures ctx.digestOf(att.candidate) == d && ctx.groupOf(att.candidate) == att.groupId
    ensures Introduced(ctx, evs, att.candidate)
    ensures |Voters(att)| == |att.validityVotes| >= ctx.requisiteVotes(att.groupId)
    ensures forall a, v | (a, v) in att.validityVotes ::
      ctx.isMemberOf(a, att.groupId) && BackedBy(ctx, evs, d, a, v)
  {
    var t := Run(ctx, evs).value;
    RunInvariant(ctx, evs);
    hide Run, BackedBy;
    var votes := t.candidateVotes[d].validityVotes;
    forall a, v | (a, v) in att.validityVotes ensures ctx.isMemberOf(a, att.groupId) && BackedBy(ctx, evs, d, a, v) {
      var i :| 0 <= i < |att.validityVotes| && att.validityVotes[i] == (a, v);
      assert VoteOf(t, d, a) == Some(votes[a]);
      VoteBacked(ctx, evs, d, a);
    }
    ListedVoters(votes, att.validityVotes);
  }

  lemma ListedVoters(votes: map<AuthorityId, ValidityVote>, listed: seq<(AuthorityId, ValidityAttestation)>)
    requires Lists(votes, listed)
    ensures (set i | 0 <= i < |listed| :: listed[i].0) == votes.Keys
    ensures |listed| == |votes|
  {
    var named := set i | 0 <= i < |listed| :: listed[i].0;
    forall a | a in votes ensures a in named {
      var i :| 0 <= i < |listed| && listed[i] == (a, AttestationOf(votes[a]));
    }
    DistinctCount(listed, |listed|);
    assert named == votes.Keys;
  }

  lemma {:induction false} DistinctCount(listed: seq<(AuthorityId, ValidityAttestation)>, n: nat)
    requires n <= |listed|
    requires forall i, j | 0 <= i < j < |listed| :: listed[i].0 != listed[j].0
    ensures |set i | 0 <= i < n :: listed[i].0| == n
  {
    if n > 0 {
      DistinctCount(listed, n - 1);
      var before := set i | 0 <= i < n - 1 :: listed[i].0;
      assert (set i | 0 <= i < n :: listed[i].0) == before + {listed[n - 1].0};
      assert listed[n - 1].0 !in before;
    }
  }

  lemma VotesKept(t: Tables, t': Tables, d: Digest, a: AuthorityId)
    requires Grows(t, t') && d in t.candidateVotes && a in t.candidateVotes[d].validityVotes
    ensures a in t'.candidateVotes[d].validityVotes
    ensures t'.candidateVotes[d].validityVotes[a] == t.candidateVotes[d].validityVotes[a]
  {
    assert VoteOf(t', d, a) == VoteOf(t, d, a);
  }

  /** Once attested, always attested, with the same candidate and at least the same votes. */
  lemma {:induction false} AttestationPermanent(ctx: Context, evs: seq<Event>, more: seq<Event>, d: Digest,
                                                att: AttestedCandidate, later: Option<AttestedCandidate>)
    requires Run(ctx, evs + more).Some? && Run(ctx, evs).Some?
    requires Attests(ctx, Run(ctx, evs).value, d, Some(att))
    requires Attests(ctx, Run(ctx, evs + more).value, d, later)
    ensures later.Some? && later.value.candidate == att.candidate && later.value.groupId == att.groupId
    ensures forall x | x in att.validityVotes :: x in later.value.validityVotes
  {
    RunGrows(ctx, evs, more);
    hide Run;
    var t, t' := Run(ctx, evs).value, Run(ctx, evs + more).value;
    var votes, votes' := t.candidateVotes[d].validityVotes, t'.candidateVotes[d].validityVotes;
    forall a | a in votes ensures a in votes' && votes'[a] == votes[a] {
      VotesKept(t, t', d, a);
    }
    SubsetSize(votes.Keys, votes'.Keys);
    forall x | x in att.validityVotes ensures x in later.value.validityVotes {
      var i :| 0 <= i < |att.validityVotes| && att.validityVotes[i] == x;
      assert (x.0, AttestationOf(votes'[x.0])) in later.value.validityVotes;
    }
  }

  // ---- When every listed vote is for the attested candidate ----

  /** The statement a listed vote stands for, if taken to be about the attested candidate. */
  function Claimed(c: Candidate, d: Digest, a: AuthorityId, v: ValidityAttestation): SignedStatement {
    SignedStatement(if v.ByIssuing? then Seconded(c) else Valid(d), v.signature, a)
  }

  ghost predicate AllClaimed(evs: seq<Event>, d: Digest, att: AttestedCandidate) {
    forall a, v | (a, v) in att.validityVotes :: Submitted(evs, Claimed(att.candidate, d, a, v))
  }

  /**
   Voters who can attest `c1`, two of them being `b` and `a`, where `a` may second another
   candidate of the same digest.
   */
  ghost predicate Confuses(ctx: Context, c1: Candidate, c2: Candidate, a: AuthorityId, b: AuthorityId,
                           voters: set<AuthorityId>) {
    && ctx.digestOf(c1) == ctx.digestOf(c2) && c1 != c2
    && a != b && a in voters && b in voters
    && (forall x | x in voters :: ctx.isMemberOf(x, ctx.groupOf(c1)))
    && ctx.isMemberOf(a, ctx.groupOf(c2))
    && |voters| >= ctx.requisiteVotes(ctx.groupOf(c1))
  }

  ghost predicate Confusable(ctx: Context) {
    exists c1, c2, a, b, voters :: Confuses(ctx, c1, c2, a, b, voters)
  }

  /** `b`'s implicit vote on `d` is a seconding of the very candidate stored there. */
  ghost predicate Opened(evs: seq<Event>, t: Tables, d: Digest, b: AuthorityId) {
    && VoteOf(t, d, b).Some? && VoteOf(t, d, b).value.Issued?
    && Submitted(evs, SignedStatement(Seconded(t.candidateVotes[d].candidate), VoteOf(t, d, b).value.signature, b))
  }

  ghost predicate AllOpened(evs: seq<Event>, t: Tables) {
    forall d | d in t.candidateVotes :: exists b :: Opened(evs, t, d, b)
  }

  lemma EffectKeepsOpened(ctx: Context, evs: seq<Event>, t: Tables, s: SignedStatement, t': Tables)
    requires AllOpened(evs, t) && Effect(ctx, t, s, t')
    ensures AllOpened(evs + [Import(s)], t')
  {
    var evs' := evs + [Import(s)];
    assert Submitted(evs', s) && s == SignedStatement(s.statement, s.signature, s.sender);
    forall d | d in t'.candidateVotes ensures exists b :: Opened(evs', t', d, b) {
      if d in t.candidateVotes {
        var b :| Opened(evs, t, d, b);
        assert VoteOf(t', d, b) == VoteOf(t, d, b);
        assert Opened(evs', t', d, b);
      } else {
        assert Opened(evs', t', d, s.sender);
      }
    }
  }

  lemma DrainKeepsOpened(evs: seq<Event>, t: Tables)
    requires AllOpened(evs, t)
    ensures AllOpened(evs + [Drain], t.(misbehavior := map[]))
  {
    var evs', t' := evs + [Drain], t.(misbehavior := map[]);
    forall d | d in t'.candidateVotes ensures exists b :: Opened(evs', t', d, b) {
      var b :| Opened(evs, t, d, b);
      assert VoteOf(t', d, b) == VoteOf(t, d, b);
      assert Opened(evs', t', d, b);
    }
  }

  lemma {:induction false} RunOpened(ctx: Context, evs: seq<Event>)
    requires Run(ctx, evs).Some?
    ensures AllOpened(evs, Run(ctx, evs).value)
  {
    hide AllOpened, Effect, WellFormed, Backed, ImportStatement;
    if evs == [] {
      NoneToOpen();
    } else {
      var before, e := evs[..|evs| - 1], evs[|evs| - 1];
      assert evs == before + [e];
      RunOpened(ctx, before);
      var t := Run(ctx, before).value;
      match e {
        case Drain => DrainKeepsOpened(before, t);
        case Import(s) =>
          RunInvariant(ctx, before);
          ImportEffect(ctx, t, s);
          EffectKeepsOpened(ctx, before, t, s, Run(ctx, evs).value);
      }
    }
  }

  lemma NoneToOpen()
    ensures AllOpened([], EMPTY)
  {
  }

  /** Someone's vote is a seconding of the stored candidate. */
  lemma Opener(ctx: Context, evs: seq<Event>, d: Digest) returns (b: AuthorityId)
    requires Run(ctx, evs).Some? && d in Run(ctx, evs).value.candidateVotes
    ensures Opened(evs, Run(ctx, evs).value, d, b)
  {
    hide Run;
    RunOpened(ctx, evs);
    b :| Opened(evs, Run(ctx, evs).value, d, b);
  }

  /** The candidate `a` seconded, if it did not submit what its vote is listed as. */
  lemma OtherSeconded(ctx: Context, evs: seq<Event>, d: Digest, a: AuthorityId) returns (c: Candidate)
    requires Run(ctx, evs).Some? && VoteOf(Run(ctx, evs).value, d, a).Some?
    requires var t := Run(ctx, evs).value;
      !Submitted(evs, Claimed(t.candidateVotes[d].candidate, d, a, AttestationOf(VoteOf(t, d, a).value)))
    ensures VoteOf(Run(ctx, evs).value, d, a).value.Issued?
    ensures ctx.digestOf(c) == d && ctx.isMemberOf(a, ctx.groupOf(c))
    ensures c != Run(ctx, evs).value.candidateVotes[d].candidate
  {
    RunInvariant(ctx, evs);
    hide Run;
    var v := VoteOf(Run(ctx, evs).value, d, a).value;
    assert v.Issued? && SecondedBy(ctx, evs, a, d, v.signature);
    c :| Submitted(evs, SignedStatement(Seconded(c), v.signature, a))
      && ctx.digestOf(c) == d && ctx.isMemberOf(a, ctx.groupOf(c));
  }

  lemma VotersBelong(ctx: Context, evs: seq<Event>, d: Digest)
    requires Run(ctx, evs).Some? && d in Run(ctx, evs).value.candidateVotes
    ensures var data := Run(ctx, evs).value.candidateVotes[d];
      && ctx.digestOf(data.candidate) == d && ctx.groupOf(data.candidate) == data.groupId
      && forall x | x in data.validityVotes :: ctx.isMemberOf(x, data.groupId)
  {
    RunInvariant(ctx, evs);
    hide Run, Backed;
    var t := Run(ctx, evs).value;
    forall x | x in t.candidateVotes[d].validityVotes ensures ctx.isMemberOf(x, t.candidateVotes[d].groupId) {
      assert VoteOf(t, d, x).Some?;
    }
  }

  /** A listed vote that was not submitted as listed exhibits a confusion. */
  lemma {:induction false} UnclaimedConfuses(ctx: Context, evs: seq<Event>, d: Digest, att: AttestedCandidate,
                                             a: AuthorityId, v: ValidityAttestation)
    requires Run(ctx, evs).Some? && Attests(ctx, Run(ctx, evs).value, d, Some(att))
    requires (a, v) in att.validityVotes && !Submitted(evs, Claimed(att.candidate, d, a, v))
    ensures Confusable(ctx)
  {
    hide Run, Submitted;
    var t := Run(ctx, evs).value;
    var votes := t.candidateVotes[d].validityVotes;
    var i :| 0 <= i < |att.validityVotes| && att.validityVotes[i] == (a, v);
    assert VoteOf(t, d, a) == Some(votes[a]) && v == AttestationOf(votes[a]);
    var c2 := OtherSeconded(ctx, evs, d, a);
    var b := Opener(ctx, evs, d);
    VotersBelong(ctx, evs, d);
    assert Confuses(ctx, att.candidate, c2, a, b, votes.Keys);
  }

  /** Members of the group vote one after the other. */
  lemma {:induction false} Gather(ctx: Context, evs: seq<Event>, d: Digest, voters: set<AuthorityId>)
    returns (more: seq<Event>)
    requires Run(ctx, evs).Some? && d in Run(ctx, evs).value.candidateVotes
    requires forall x | x in voters :: ctx.isMemberOf(x, Run(ctx, evs).value.candidateVotes[d].groupId)
    ensures Run(ctx, evs + more).Some? && d in Run(ctx, evs + more).value.candidateVotes
    ensures voters <= Run(ctx, evs + more).value.candidateVotes[d].validityVotes.Keys
    ensures forall e | e in more :: e.Import? && e.statement.statement.Valid?
  {
    if voters == {} {
      more := [];
      assert evs + [] == evs;
    } else {
      var x :| x in voters;
      var less := Gather(ctx, evs, d, voters - {x});
      var s := SignedStatement(Valid(d), Signature(0), x);
      more := less + [Import(s)];
      assert evs + more == (evs + less) + [Import(s)];
      RunStep(ctx, evs + less, Import(s));
      RunGrows(ctx, evs, less);
      hide Run;
      var t := Run(ctx, evs + less).value;
      OneMoreVote(ctx, t, s);
      RunGrowsOnce(ctx, evs + less, Import(s));
      var t' := Run(ctx, evs + more).value;
      forall y | y in voters ensures y in t'.candidateVotes[d].validityVotes {
        if y != x {
          VotesKept(t, t', d, y);
        }
      }
    }
  }

  lemma RunGrowsOnce(ctx: Context, evs: seq<Event>, e: Event)
    requires Run(ctx, evs + [e]).Some?
    ensures Run(ctx, evs).Some? && Grows(Run(ctx, evs).value, Run(ctx, evs + [e]).value)
  {
    RunGrows(ctx, evs, [e]);
  }

  lemma OneMoreVote(ctx: Context, t: Tables, s: SignedStatement)
    requires s.statement.Valid? && About(ctx, s) in t.candidateVotes
    requires ctx.isMemberOf(s.sender, t.candidateVotes[About(ctx, s)].groupId)
    ensures !ImportStatement(ctx, t, s).1.Panicked?
    ensures About(ctx, s) in ImportStatement(ctx, t, s).0.candidateVotes
    ensures s.sender in ImportStatement(ctx, t, s).0.candidateVotes[About(ctx, s)].validityVotes
  {
  }

  /** `b` seconds `c1`, then `a` seconds `c2`: both votes count for `c1`. */
  lemma ConfusedPair(ctx: Context, c1: Candidate, c2: Candidate, a: AuthorityId, b: AuthorityId)
    requires ctx.digestOf(c1) == ctx.digestOf(c2) && a != b
    requires ctx.isMemberOf(a, ctx.groupOf(c1)) && ctx.isMemberOf(b, ctx.groupOf(c1))
    requires ctx.isMemberOf(a, ctx.groupOf(c2))
    ensures var evs := [Import(SignedStatement(Seconded(c1), Signature(0), b)),
                        Import(SignedStatement(Seconded(c2), Signature(0), a))];
      && Run(ctx, evs).Some?
      && ctx.digestOf(c1) in Run(ctx, evs).value.candidateVotes
      && Run(ctx, evs).value.candidateVotes[ctx.digestOf(c1)] ==
         CandidateData(ctx.groupOf(c1), c1, map[b := Issued(Signature(0)), a := Issued(Signature(0))])
  {
    var d := ctx.digestOf(c1);
    var s1 := SignedStatement(Seconded(c1), Signature(0), b);
    var s2 := SignedStatement(Seconded(c2), Signature(0), a);
    assert [Import(s1)] + [Import(s2)] == [Import(s1), Import(s2)];
    assert [] + [Import(s1)] == [Import(s1)];
    RunStep(ctx, [], Import(s1));
    RunStep(ctx, [Import(s1)], Import(s2));
    assert Run(ctx, []) == Some(EMPTY);
    hide Run;
    var t := Tables(map[b := AuthorityData(Some(Proposal(d, Signature(0))))], map[],
                    map[d := CandidateData(ctx.groupOf(c1), c1, map[b := Issued(Signature(0))])]);
    FirstImport(ctx, s1);
    SecondImport(ctx, t, s2);
  }

  lemma FirstImport(ctx: Context, s: SignedStatement)
    requires s.statement.Seconded? && ctx.isMemberOf(s.sender, ctx.groupOf(s.statement.candidate))
    ensures var c := s.statement.candidate;
      var t := Tables(map[s.sender := AuthorityData(Some(Proposal(ctx.digestOf(c), s.signature)))], map[],
                      map[ctx.digestOf(c) := CandidateData(ctx.groupOf(c), c, map[s.sender := Issued(s.signature)])]);
      ImportStatement(ctx, EMPTY, s).0 == t && ImportStatement(ctx, EMPTY, s).1.Accepted?
  {
  }

  lemma SecondImport(ctx: Context, t: Tables, s: SignedStatement)
    requires s.statement.Seconded? && ctx.isMemberOf(s.sender, ctx.groupOf(s.statement.candidate))
    requires s.sender !in t.authorityData && About(ctx, s) in t.candidateVotes
    requires s.sender !in t.candidateVotes[About(ctx, s)].validityVotes
    requires ctx.isMemberOf(s.sender, t.candidateVotes[About(ctx, s)].groupId)
    ensures var (t', r) := ImportStatement(ctx, t, s); var data := t.candidateVotes[About(ctx, s)];
      && r.Accepted?
      && About(ctx, s) in t'.candidateVotes
      && t'.candidateVotes[About(ctx, s)] ==
         data.(validityVotes := data.validityVotes[s.sender := Issued(s.signature)])
  {
  }

  lemma ListsOneMore(votes: map<AuthorityId, ValidityVote>, a: AuthorityId,
                     rest: seq<(AuthorityId, ValidityAttestation)>)
    requires a in votes && Lists(votes - {a}, rest)
    ensures Lists(votes, rest + [(a, AttestationOf(votes[a]))])
  {
    hide AttestationOf;
    var listed := rest + [(a, AttestationOf(votes[a]))];
    assert listed[|rest|] == (a, AttestationOf(votes[a]));
    assert forall i | 0 <= i < |rest| :: listed[i] == rest[i];
    forall x | x in votes ensures (x, AttestationOf(votes[x])) in listed {
      if x != a {
        assert x in votes - {a} && (x, AttestationOf((votes - {a})[x])) in rest;
      }
    }
  }

  lemma {:induction false} Listing(votes: map<AuthorityId, ValidityVote>)
    returns (listed: seq<(AuthorityId, ValidityAttestation)>)
    ensures Lists(votes, listed)
    decreases |votes|
  {
    if votes == map[] {
      listed := [];
    } else {
      hide Lists, AttestationOf;
      var a :| a in votes;
      assert (votes - {a}).Keys + {a} == votes.Keys;
      var rest := Listing(votes - {a});
      ListsOneMore(votes, a, rest);
      listed := rest + [(a, AttestationOf(votes[a]))];
    }
  }

  /** A run whose attestation lists a seconding of `c1` by `a`, who only ever seconded `c2`. */
  lemma ConfusedAttestation(ctx: Context, c1: Candidate, c2: Candidate, a: AuthorityId, b: AuthorityId,
                            voters: set<AuthorityId>) returns (evs: seq<Event>, att: AttestedCandidate)
    requires Confuses(ctx, c1, c2, a, b, voters)
    ensures Run(ctx, evs).Some? && Attests(ctx, Run(ctx, evs).value, ctx.digestOf(c1), Some(att))
    ensures !AllClaimed(evs, ctx.digestOf(c1), att)
  {
    var d := ctx.digestOf(c1);
    var pair := [Import(SignedStatement(Seconded(c1), Signature(0), b)),
                 Import(SignedStatement(Seconded(c2), Signature(0), a))];
    ConfusedPair(ctx, c1, c2, a, b);
    var more := Gather(ctx, pair, d, voters);
    evs := pair + more;
    RunGrows(ctx, pair, more);
    hide Run;
    var t, t' := Run(ctx, pair).value, Run(ctx, evs).value;
    VotesKept(t, t', d, a);
    var data := t'.candidateVotes[d];
    SubsetSize(voters, data.validityVotes.Keys);
    var listed := Listing(data.validityVotes);
    att := AttestedCandidate(data.groupId, data.candidate, listed);
    assert (a, ByIssuing(Signature(0))) in listed;
    assert !Submitted(evs, Claimed(c1, d, a, ByIssuing(Signature(0))));
  }

  /** In every run listed votes are for the attested candidate exactly when nothing confuses voters. */
  lemma AttestationExactly(ctx: Context)
    ensures (forall evs, d, att | Run(ctx, evs).Some? && Attests(ctx, Run(ctx, evs).value, d, Some(att)) ::
               AllClaimed(evs, d, att))
            <==> !Confusable(ctx)
  {
    hide Run, Attests;
    if Confusable(ctx) {
      var c1, c2, a, b, voters :| Confuses(ctx, c1, c2, a, b, voters);
      var evs, att := ConfusedAttestation(ctx, c1, c2, a, b, voters);
    } else {
      forall evs, d, att | Run(ctx, evs).Some? && Attests(ctx, Run(ctx, evs).value, d, Some(att))
        ensures AllClaimed(evs, d, att)
      {
        forall a, v | (a, v) in att.validityVotes ensures Submitted(evs, Claimed(att.candidate, d, a, v)) {
          if !Submitted(evs, Claimed(att.candidate, d, a, v)) {
            UnclaimedConfuses(ctx, evs, d, att, a, v);
          }
        }
      }
    }
  }
}

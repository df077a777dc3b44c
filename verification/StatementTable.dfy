/**
 The statement table: proposals per authority, votes per candidate digest and
 misbehavior per authority, with the three operations that update them.

 `ImportStatement`, `SecondCandidate` and `CastVote` say what one import does to the
 three maps; class `Table` performs the same updates in place.
 */
module StatementTable {
  import opened Options
  import opened Statements

  datatype ValidityVote =
    | Issued(signature: Signature)
    | Explicit(signature: Signature)

  datatype CandidateData =
    CandidateData(groupId: GroupId, candidate: Candidate, validityVotes: map<AuthorityId, ValidityVote>)

  datatype Proposal = Proposal(digest: Digest, signature: Signature)

  datatype AuthorityData = AuthorityData(proposal: Option<Proposal>)

  datatype Summary = Summary(candidate: Digest, groupId: GroupId, validityVotes: nat)

  datatype Tables = Tables(
    authorityData: map<AuthorityId, AuthorityData>,
    misbehavior: map<AuthorityId, seq<Misbehavior>>,
    candidateVotes: map<Digest, CandidateData>)

  const EMPTY := Tables(map[], map[], map[])

  /** How one import ends: `Ok(Some)`, `Ok(None)`, `Err` or a panic. */
  datatype Outcome =
    | Accepted(summary: Summary)
    | Ignored
    | Faulted(misbehavior: Misbehavior)
    | Panicked

  function ProposalOf(t: Tables, a: AuthorityId): Option<Proposal> {
    if a in t.authorityData then t.authorityData[a].proposal else None
  }

  function VoteOf(t: Tables, d: Digest, a: AuthorityId): Option<ValidityVote> {
    if d in t.candidateVotes && a in t.candidateVotes[d].validityVotes
    then Some(t.candidateVotes[d].validityVotes[a]) else None
  }

  function SummaryOf(data: CandidateData, d: Digest): Summary {
    Summary(d, data.groupId, |data.validityVotes|)
  }

  /** The accusation raised when a second, different vote arrives on the same digest. */
  function Clash(c: Candidate, d: Digest, earlier: ValidityVote, later: ValidityVote): Misbehavior {
    match (earlier, later)
    case (Issued(i), Explicit(v)) => ValidityDoubleVote(c, i, d, v)
    case (Explicit(v), Issued(i)) => ValidityDoubleVote(c, i, d, v)
    case (Issued(s1), Issued(s2)) => DoubleSigned(OnSeconded(c, s1, s2))
    case (Explicit(s1), Explicit(s2)) => DoubleSigned(OnValidity(d, s1, s2))
  }

  function CastVote(ctx: Context, t: Tables, from: AuthorityId, d: Digest, vote: ValidityVote)
    : (Tables, Outcome)
  {
    if d !in t.candidateVotes then (t, Ignored)
    else
      var data := t.candidateVotes[d];
      if !ctx.isMemberOf(from, data.groupId) then
        (t, if vote.Issued? then Panicked
            else Faulted(UnauthorizedStatement(SignedStatement(Valid(d), vote.signature, from))))
      else if from in data.validityVotes then
        var earlier := data.validityVotes[from];
        (t, if earlier == vote then Ignored else Faulted(Clash(data.candidate, d, earlier, vote)))
      else
        var data' := data.(validityVotes := data.validityVotes[from := vote]);
        (t.(candidateVotes := t.candidateVotes[d := data']), Accepted(SummaryOf(data', d)))
  }

  /** The table after `a` makes its first proposal, before the implicit vote is cast. */
  function Propose(ctx: Context, t: Tables, a: AuthorityId, c: Candidate, s: Signature): Tables {
    var d := ctx.digestOf(c);
    var votes :=
      if d in t.candidateVotes then t.candidateVotes
      else t.candidateVotes[d := CandidateData(ctx.groupOf(c), c, map[])];
    t.(authorityData := t.authorityData[a := AuthorityData(Some(Proposal(d, s)))],
       candidateVotes := votes)
  }

  function SecondCandidate(ctx: Context, t: Tables, a: AuthorityId, c: Candidate, s: Signature)
    : (Tables, Outcome)
  {
    if !ctx.isMemberOf(a, ctx.groupOf(c)) then
      (t, Faulted(UnauthorizedStatement(SignedStatement(Seconded(c), s, a))))
    else
      var d := ctx.digestOf(c);
      match ProposalOf(t, a)
      case None => CastVote(ctx, Propose(ctx, t, a, c, s), a, d, Issued(s))
      case Some(prior) =>
        if prior.digest == d then CastVote(ctx, t, a, d, Issued(s))
        else if prior.digest !in t.candidateVotes then (t, Panicked)
        else (t, Faulted(MultipleCandidates(
                   t.candidateVotes[prior.digest].candidate, prior.signature, c, s)))
  }

  function File(t: Tables, a: AuthorityId, m: Misbehavior): Tables {
    var before := if a in t.misbehavior then t.misbehavior[a] else [];
    t.(misbehavior := t.misbehavior[a := before + [m]])
  }

  function ImportStatement(ctx: Context, t: Tables, s: SignedStatement): (Tables, Outcome) {
    var (t', r) :=
      match s.statement
      case Seconded(c) => SecondCandidate(ctx, t, s.sender, c, s.signature)
      case Valid(d) => CastVote(ctx, t, s.sender, d, Explicit(s.signature));
    (if r.Faulted? then File(t', s.sender, r.misbehavior) else t', r)
  }

  datatype ValidityAttestation =
    | ByIssuing(signature: Signature)
    | ByVoting(signature: Signature)

  datatype AttestedCandidate = AttestedCandidate(
    groupId: GroupId,
    candidate: Candidate,
    validityVotes: seq<(AuthorityId, ValidityAttestation)>)

  function AttestationOf(v: ValidityVote): ValidityAttestation {
    match v
    case Issued(s) => ByIssuing(s)
    case Explicit(s) => ByVoting(s)
  }

  /** `listed` names each voter once, with the attestation its vote stands for. */
  ghost predicate Lists(votes: map<AuthorityId, ValidityVote>, listed: seq<(AuthorityId, ValidityAttestation)>) {
    && (forall i | 0 <= i < |listed| ::
          listed[i].0 in votes && listed[i].1 == AttestationOf(votes[listed[i].0]))
    && (forall i, j | 0 <= i < j < |listed| :: listed[i].0 != listed[j].0)
    && (forall a | a in votes :: (a, AttestationOf(votes[a])) in listed)
  }

  /** `r` is what the table may answer when asked for the attested candidate of `d`. */
  ghost predicate Attests(ctx: Context, t: Tables, d: Digest, r: Option<AttestedCandidate>) {
    && (r.Some? <==>
          && d in t.candidateVotes
          && |t.candidateVotes[d].validityVotes| >= ctx.requisiteVotes(t.candidateVotes[d].groupId))
    && (r.Some? ==>
          && r.value.groupId == t.candidateVotes[d].groupId
          && r.value.candidate == t.candidateVotes[d].candidate
          && Lists(t.candidateVotes[d].validityVotes, r.value.validityVotes))
  }

  /** Lists the votes in whatever order the map is visited. */
  method ListVotes(votes: map<AuthorityId, ValidityVote>)
    returns (listed: seq<(AuthorityId, ValidityAttestation)>)
    ensures Lists(votes, listed)
    ensures |listed| == |votes|
  {
    listed := [];
    var rest := votes.Keys;
    while rest != {}
      invariant rest <= votes.Keys
      invariant |listed| + |rest| == |votes.Keys|
      invariant forall i | 0 <= i < |listed| ::
        listed[i].0 in votes.Keys - rest && listed[i].1 == AttestationOf(votes[listed[i].0])
      invariant forall i, j | 0 <= i < j < |listed| :: listed[i].0 != listed[j].0
      invariant forall a | a in votes.Keys - rest :: (a, AttestationOf(votes[a])) in listed
      decreases rest
    {
      var a :| a in rest;
      rest := rest - {a};
      listed := listed + [(a, AttestationOf(votes[a]))];
    }
  }

  /** The table as the program keeps it: three maps, updated in place. */
  class Table {
    var authorityData: map<AuthorityId, AuthorityData>
    var detectedMisbehavior: map<AuthorityId, seq<Misbehavior>>
    var candidateVotes: map<Digest, CandidateData>

    function Contents(): Tables
      reads this
    {
      Tables(authorityData, detectedMisbehavior, candidateVotes)
    }

    constructor ()
      ensures Contents() == EMPTY
    {
      authorityData, detectedMisbehavior, candidateVotes := map[], map[], map[];
    }

    method Import(ctx: Context, s: SignedStatement) returns (r: Outcome)
      modifies this
      ensures (Contents(), r) == ImportStatement(ctx, old(Contents()), s)
    {
      match s.statement {
        case Seconded(c) => r := ImportCandidate(ctx, s.sender, c, s.signature);
        case Valid(d) => r := ValidityVote(ctx, s.sender, d, Explicit(s.signature));
      }
      if r.Faulted? {
        ghost var filed := File(Contents(), s.sender, r.misbehavior);
        if s.sender !in detectedMisbehavior {
          detectedMisbehavior := detectedMisbehavior[s.sender := []];
        }
        detectedMisbehavior :=
          detectedMisbehavior[s.sender := detectedMisbehavior[s.sender] + [r.misbehavior]];
        assert detectedMisbehavior == filed.misbehavior;
      }
    }

    method ImportCandidate(ctx: Context, a: AuthorityId, c: Candidate, s: Signature) returns (r: Outcome)
      modifies this`authorityData, this`candidateVotes
      ensures (Contents(), r) == SecondCandidate(ctx, old(Contents()), a, c, s)
    {
      var group := ctx.groupOf(c);
      if !ctx.isMemberOf(a, group) {
        return Faulted(UnauthorizedStatement(SignedStatement(Seconded(c), s, a)));
      }
      var digest := ctx.digestOf(c);
      var newProposal := true;
      if a in authorityData && authorityData[a].proposal.Some? {
        var prior := authorityData[a].proposal.value;
        if prior.digest != digest {
          if prior.digest !in candidateVotes {
            return Panicked;
          }
          return Faulted(MultipleCandidates(candidateVotes[prior.digest].candidate, prior.signature, c, s));
        }
        newProposal := false;
      } else {
        authorityData := authorityData[a := AuthorityData(Some(Proposal(digest, s)))];
      }
      if newProposal && digest !in candidateVotes {
        candidateVotes := candidateVotes[digest := CandidateData(group, c, map[])];
      }
      r := ValidityVote(ctx, a, digest, Issued(s));
    }

    method ValidityVote(ctx: Context, from: AuthorityId, d: Digest, vote: ValidityVote) returns (r: Outcome)
      modifies this`candidateVotes
      ensures (Contents(), r) == CastVote(ctx, old(Contents()), from, d, vote)
    {
      if d !in candidateVotes {
        return Ignored;
      }
      var votes := candidateVotes[d];
      if !ctx.isMemberOf(from, votes.groupId) {
        match vote {
          case Explicit(s) =>
            return Faulted(UnauthorizedStatement(SignedStatement(Valid(d), s, from)));
          case Issued(_) => return Panicked;
        }
      }
      if from in votes.validityVotes {
        var earlier := votes.validityVotes[from];
        if earlier != vote {
          return Faulted(Clash(votes.candidate, d, earlier, vote));
        }
        return Ignored;
      }
      votes := votes.(validityVotes := votes.validityVotes[from := vote]);
      candidateVotes := candidateVotes[d := votes];
      r := Accepted(SummaryOf(votes, d));
    }

    method GetAttested(ctx: Context, d: Digest) returns (r: Option<AttestedCandidate>)
      ensures Attests(ctx, Contents(), d, r)
      ensures r.Some? ==> |r.value.validityVotes| >= ctx.requisiteVotes(r.value.groupId)
    {
      if d !in candidateVotes {
        return None;
      }
      var data := candidateVotes[d];
      if |data.validityVotes| < ctx.requisiteVotes(data.groupId) {
        return None;
      }
      var listed := ListVotes(data.validityVotes);
      r := Some(AttestedCandidate(data.groupId, data.candidate, listed));
    }
  }
}

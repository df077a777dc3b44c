/**
 The vocabulary of the statement table: what authorities sign about candidates, and
 the kinds of misbehavior that can be proved from what they signed.

 Identifiers are one-field records over natural numbers, so that an authority can
 never be confused with a digest; a context interprets candidates arbitrarily.
 */
module Statements {
  datatype AuthorityId = AuthorityId(index: nat)
  datatype Digest = Digest(bits: nat)
  datatype GroupId = GroupId(index: nat)
  datatype Signature = Signature(bits: nat)
  datatype Candidate = Candidate(para: nat, body: nat)

  /** What the table is told about candidates, groups and thresholds. */
  datatype Context = Context(
    digestOf: Candidate -> Digest,
    groupOf: Candidate -> GroupId,
    isMemberOf: (AuthorityId, GroupId) -> bool,
    requisiteVotes: GroupId -> nat)

  datatype Statement =
    | Seconded(candidate: Candidate)
    | Valid(digest: Digest)

  datatype SignedStatement =
    SignedStatement(statement: Statement, signature: Signature, sender: AuthorityId)

  datatype DoubleSign =
    | OnSeconded(candidate: Candidate, first: Signature, second: Signature)
    | OnValidity(digest: Digest, first: Signature, second: Signature)

  datatype Misbehavior =
    | ValidityDoubleVote(candidate: Candidate, issued: Signature, digest: Digest, valid: Signature)
    | MultipleCandidates(first: Candidate, firstSignature: Signature,
                         second: Candidate, secondSignature: Signature)
    | UnauthorizedStatement(statement: SignedStatement)
    | DoubleSigned(double: DoubleSign)

  /** The signed statements an accusation against `a` consists of. */
  function Evidence(a: AuthorityId, m: Misbehavior): seq<SignedStatement> {
    match m
    case ValidityDoubleVote(c, issued, d, valid) =>
      [SignedStatement(Seconded(c), issued, a), SignedStatement(Valid(d), valid, a)]
    case MultipleCandidates(c1, s1, c2, s2) =>
      [SignedStatement(Seconded(c1), s1, a), SignedStatement(Seconded(c2), s2, a)]
    case UnauthorizedStatement(s) => [s]
    case DoubleSigned(OnSeconded(c, s1, s2)) =>
      [SignedStatement(Seconded(c), s1, a), SignedStatement(Seconded(c), s2, a)]
    case DoubleSigned(OnValidity(d, s1, s2)) =>
      [SignedStatement(Valid(d), s1, a), SignedStatement(Valid(d), s2, a)]
  }

  /** The digest a statement is about. */
  function About(ctx: Context, s: SignedStatement): Digest {
    match s.statement
    case Seconded(c) => ctx.digestOf(c)
    case Valid(d) => d
  }

  /** Two statements one authority must not both sign. */
  ghost predicate Conflict(ctx: Context, s1: SignedStatement, s2: SignedStatement) {
    && s1.sender == s2.sender
    && s1 != s2
    && (About(ctx, s1) == About(ctx, s2) || (s1.statement.Seconded? && s2.statement.Seconded?))
  }
}

/**
 The context of the table's own tests: a candidate's digest is its body alone, so
 candidates of different groups can share a digest.
 */
module StatementTestContext {
  import opened Options
  import opened Statements
  import opened StatementRuns
  import opened StatementEvidence

  function TestContext(authorities: map<AuthorityId, GroupId>): Context {
    Context(
      (c: Candidate) => Digest(c.body),
      (c: Candidate) => GroupId(c.para),
      (a, g) => a in authorities && authorities[a] == g,
      g => |set a | a in authorities && authorities[a] == g| / 2 + 1)
  }

  /** Two authorities of different groups can make the table panic, by seconding equal bodies. */
  lemma TwoGroupsPanic(authorities: map<AuthorityId, GroupId>, a: AuthorityId, b: AuthorityId, body: nat)
    requires a in authorities && b in authorities && authorities[a] != authorities[b]
    ensures Run(TestContext(authorities),
                [Import(SignedStatement(Seconded(Candidate(authorities[b].index, body)), Signature(0), b)),
                 Import(SignedStatement(Seconded(Candidate(authorities[a].index, body)), Signature(0), a))]) == None
  {
    var c1, c2 := Candidate(authorities[b].index, body), Candidate(authorities[a].index, body);
    PanickingRun(TestContext(authorities), c1, c2, a, b);
  }

  /** No run panics exactly when all authorities are in one group. */
  lemma TestContextPanicFreeExactly(authorities: map<AuthorityId, GroupId>)
    ensures (forall evs :: Run(TestContext(authorities), evs).Some?) <==>
            (forall a, b | a in authorities && b in authorities :: authorities[a] == authorities[b])
  {
    var ctx := TestContext(authorities);
    if a, b :| a in authorities && b in authorities && authorities[a] != authorities[b] {
      TwoGroupsPanic(authorities, a, b, 0);
    } else {
      assert MembershipFollowsDigest(ctx);
      PanicFreeExactly(ctx);
    }
  }

  /** Short of a panic, accusations are genuine: no authority has two groups. */
  lemma TestContextEvidenceSound(authorities: map<AuthorityId, GroupId>, evs: seq<Event>)
    requires Run(TestContext(authorities), evs).Some?
    ensures AllGenuine(TestContext(authorities), evs, Run(TestContext(authorities), evs).value)
  {
    EvidenceSound(TestContext(authorities), evs);
  }
}

/**
 The record of misbehavior is the history of faulted imports, and which imports are
 faulted as unauthorized, and what a conflict is filed as, is said exactly.
 */
module StatementFiling {
  import opened Options
  import opened Statements
  import opened StatementTable
  import opened StatementRuns
  import opened StatementEvidence
  import opened StatementVotes

  /** The accusations raised by imports of `a`'s statements since the last drain, in order. */
  function Faults(ctx: Context, evs: seq<Event>, a: AuthorityId): seq<Misbehavior> {
    if evs == [] then []
    else
      var before := evs[..|evs| - 1];
      match evs[|evs| - 1]
      case Drain => []
      case Import(s) =>
        Faults(ctx, before, a) +
        if s.sender == a && Run(ctx, before).Some? && ImportStatement(ctx, Run(ctx, before).value, s).1.Faulted?
        then [ImportStatement(ctx, Run(ctx, before).value, s).1.misbehavior] else []
  }

  /** The accusations on file against `a`. */
  function OnFile(t: Tables, a: AuthorityId): seq<Misbehavior> {
    if a in t.misbehavior then t.misbehavior[a] else []
  }

  lemma ImportOnFile(ctx: Context, t: Tables, s: SignedStatement, a: AuthorityId)
    ensures var (t', r) := ImportStatement(ctx, t, s);
      && OnFile(t', a) == OnFile(t, a) + (if s.sender == a && r.Faulted? then [r.misbehavior] else [])
      && (a in t'.misbehavior <==> a in t.misbehavior || (s.sender == a && r.Faulted?))
  {
    ImportFiles(ctx, t, s);
    hide ImportStatement;
  }

  /** What is on file is each fault since the last drain, once and in order. */
  lemma {:induction false} FiledIsHistory(ctx: Context, evs: seq<Event>, a: AuthorityId)
    requires Run(ctx, evs).Some?
    ensures OnFile(Run(ctx, evs).value, a) == Faults(ctx, evs, a)
    ensures a in Run(ctx, evs).value.misbehavior <==> Faults(ctx, evs, a) != []
  {
    hide ImportStatement;
    if evs != [] {
      var before, e := evs[..|evs| - 1], evs[|evs| - 1];
      FiledIsHistory(ctx, before, a);
      if e.Import? {
        ImportOnFile(ctx, Run(ctx, before).value, e.statement, a);
      }
    }
  }

  // ---- Statements outside the group ----

  /** The sender is outside the group of the candidate it seconds, or of the one tracked under its digest. */
  ghost predicate Outside(ctx: Context, t: Tables, s: SignedStatement) {
    match s.statement
    case Seconded(c) => !ctx.isMemberOf(s.sender, ctx.groupOf(c))
    case Valid(d) =>
      d in t.candidateVotes && !ctx.isMemberOf(s.sender, ctx.groupOf(t.candidateVotes[d].candidate))
  }

  lemma CastUnauthorized(ctx: Context, t: Tables, s: SignedStatement, d: Digest)
    requires s.statement == Valid(d)
    ensures var r := CastVote(ctx, t, s.sender, d, Explicit(s.signature)).1;
      (r.Faulted? && r.misbehavior.UnauthorizedStatement?) <==>
      d in t.candidateVotes && !ctx.isMemberOf(s.sender, t.candidateVotes[d].groupId)
    ensures var r := CastVote(ctx, t, s.sender, d, Explicit(s.signature)).1;
      r.Faulted? && r.misbehavior.UnauthorizedStatement? ==> r.misbehavior.statement == s
  {
    assert s == SignedStatement(Valid(d), s.signature, s.sender);
  }

  lemma SecondUnauthorized(ctx: Context, t: Tables, s: SignedStatement, c: Candidate)
    requires s.statement == Seconded(c)
    ensures var r := SecondCandidate(ctx, t, s.sender, c, s.signature).1;
      (r.Faulted? && r.misbehavior.UnauthorizedStatement?) <==> !ctx.isMemberOf(s.sender, ctx.groupOf(c))
    ensures var r := SecondCandidate(ctx, t, s.sender, c, s.signature).1;
      r.Faulted? && r.misbehavior.UnauthorizedStatement? ==> r.misbehavior.statement == s
  {
    hide Propose;
    assert s == SignedStatement(Seconded(c), s.signature, s.sender);
  }

  /** In every run, a statement is faulted as unauthorized exactly if its sender is outside. */
  lemma {:induction false} UnauthorizedExactly(ctx: Context, evs: seq<Event>, s: SignedStatement)
    requires Run(ctx, evs).Some?
    ensures var t := Run(ctx, evs).value; var r := ImportStatement(ctx, t, s).1;
      && ((r.Faulted? && r.misbehavior.UnauthorizedStatement?) <==> Outside(ctx, t, s))
      && (Outside(ctx, t, s) ==> r == Faulted(UnauthorizedStatement(s)))
  {
    RunInvariant(ctx, evs);
    hide Run, CastVote, SecondCandidate, Backed;
    var t := Run(ctx, evs).value;
    match s.statement {
      case Valid(d) => CastUnauthorized(ctx, t, s, d);
      case Seconded(c) => SecondUnauthorized(ctx, t, s, c);
    }
  }

  /** Until the next drain it stays on file. */
  lemma {:induction false} UnauthorizedOnFile(ctx: Context, evs: seq<Event>, s: SignedStatement, more: seq<Event>)
    requires Run(ctx, evs).Some? && Outside(ctx, Run(ctx, evs).value, s)
    requires Run(ctx, evs + [Import(s)] + more).Some? && Drain !in more
    ensures UnauthorizedStatement(s) in OnFile(Run(ctx, evs + [Import(s)] + more).value, s.sender)
  {
    hide Run, ImportStatement, Outside;
    UnauthorizedExactly(ctx, evs, s);
    RunStep(ctx, evs, Import(s));
    var t, t1 := Run(ctx, evs).value, Run(ctx, evs + [Import(s)]).value;
    ImportOnFile(ctx, t, s, s.sender);
    FiledStays(ctx, evs + [Import(s)], more, s.sender);
    assert OnFile(t1, s.sender)[|OnFile(t, s.sender)|] == UnauthorizedStatement(s);
  }

  // ---- What a conflict is filed as ----

  /** The accusation a second statement `s2` of `s1`'s sender on `s1`'s digest calls for. */
  ghost predicate Accuses(ctx: Context, t: Tables, s1: SignedStatement, s2: SignedStatement, m: Misbehavior) {
    var p := ProposalOf(t, s2.sender);
    if s2.statement.Seconded? && !InGroupSeconding(ctx, s2) then
      m == UnauthorizedStatement(s2)
    else if s2.statement.Seconded? && p.Some? && p.value.digest != About(ctx, s2) then
      && m.MultipleCandidates?
      && m.firstSignature == p.value.signature && ctx.digestOf(m.first) == p.value.digest
      && m.second == s2.statement.candidate && m.secondSignature == s2.signature
    else
      Evidence(s1.sender, m) == if s1.statement.Valid? && s2.statement.Seconded? then [s2, s1] else [s1, s2]
  }

  /** The candidate under a digest its voter also seconded is the one it seconded. */
  lemma {:induction false} StoredIsSeconded(ctx: Context, evs: seq<Event>, s: SignedStatement)
    requires DigestsBindMembers(ctx) && Run(ctx, evs).Some? && InGroupSeconding(ctx, s)
    requires VoteOf(Run(ctx, evs).value, About(ctx, s), s.sender).Some?
    ensures Run(ctx, evs).value.candidateVotes[About(ctx, s)].candidate == s.statement.candidate
  {
    RunInvariant(ctx, evs);
    hide Run, Backed;
  }

  lemma SecondVoteAccused(ctx: Context, t: Tables, s1: SignedStatement, s2: SignedStatement)
    requires s1 != s2 && s1.sender == s2.sender && About(ctx, s1) == About(ctx, s2)
    requires VoteOf(t, About(ctx, s1), s1.sender)
          == Some(if s1.statement.Seconded? then Issued(s1.signature) else Explicit(s1.signature))
    requires ctx.isMemberOf(s1.sender, t.candidateVotes[About(ctx, s1)].groupId)
    requires s1.statement.Seconded? ==>
      && ProposalOf(t, s1.sender).Some?
      && t.candidateVotes[About(ctx, s1)].candidate == s1.statement.candidate
    requires InGroupSeconding(ctx, s2) ==> t.candidateVotes[About(ctx, s2)].candidate == s2.statement.candidate
    requires var p := ProposalOf(t, s1.sender); p.Some? ==>
      p.value.digest in t.candidateVotes && ctx.digestOf(t.candidateVotes[p.value.digest].candidate) == p.value.digest
    ensures var r := ImportStatement(ctx, t, s2).1; r.Faulted? && Accuses(ctx, t, s1, s2, r.misbehavior)
  {
    assert s2 == SignedStatement(s2.statement, s2.signature, s1.sender);
  }

  /** A second, different statement on a digest is filed as exactly what it is. */
  lemma {:induction false} ConflictAccused(ctx: Context, evs: seq<Event>, s1: SignedStatement, more: seq<Event>,
                                           s2: SignedStatement)
    requires DigestsBindMembers(ctx) && Contradicts(ctx, evs, s1, more, s2)
    ensures var t := Run(ctx, evs + [Import(s1)] + more).value; var r := ImportStatement(ctx, t, s2).1;
      r.Faulted? && Accuses(ctx, t, s1, s2, r.misbehavior)
  {
    hide Run, Accuses, ImportStatement, DigestsBindMembers;
    var all := evs + [Import(s1)] + more;
    var t0 := Run(ctx, evs).value;
    RunStep(ctx, evs, Import(s1));
    var t1, t2 := Run(ctx, evs + [Import(s1)]).value, Run(ctx, all).value;
    AcceptedVoteIsNew(ctx, t0, s1);
    AcceptedIsInGroup(ctx, t0, s1);
    RunGrows(ctx, evs + [Import(s1)], more);
    var d := About(ctx, s1);
    assert VoteOf(t2, d, s1.sender) == VoteOf(t1, d, s1.sender);
    if s1.statement.Seconded? {
      StoredIsSeconded(ctx, all, s1);
    }
    if InGroupSeconding(ctx, s2) {
      StoredIsSeconded(ctx, all, s2);
    }
    if ProposalOf(t2, s1.sender).Some? {
      ProposalTracked(ctx, all, s1.sender);
    }
    SecondVoteAccused(ctx, t2, s1, s2);
  }

  lemma {:induction false} ProposalTracked(ctx: Context, evs: seq<Event>, a: AuthorityId)
    requires Run(ctx, evs).Some? && ProposalOf(Run(ctx, evs).value, a).Some?
    ensures var t := Run(ctx, evs).value; var d := ProposalOf(t, a).value.digest;
      d in t.candidateVotes && ctx.digestOf(t.candidateVotes[d].candidate) == d
  {
    ProposalExists(ctx, evs, a);
    RunInvariant(ctx, evs);
    hide Run, Backed;
  }
}

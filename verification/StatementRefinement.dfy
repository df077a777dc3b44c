/**
 On runs of honest authorities the table is a plain set of statements: what it holds
 is a comprehension over the statements imported, whatever their order or repetition.
 */
module StatementRefinement {
  import opened Options
  import opened Statements
  import opened StatementTable
  import opened StatementRuns

  /** The statements of a run, as a set. */
  function Imported(evs: seq<Event>): set<SignedStatement> {
    set e | e in evs && e.Import? :: e.statement
  }

  /** No conflicts, no seconding outside one's group, and no two candidates of one digest. */
  ghost predicate Consistent(ctx: Context, all: set<SignedStatement>) {
    && (forall s | s in all && s.statement.Seconded? ::
          ctx.isMemberOf(s.sender, ctx.groupOf(s.statement.candidate)))
    && (forall s1, s2 | s1 in all && s2 in all :: !Conflict(ctx, s1, s2))
    && (forall s1, s2 | s1 in all && s2 in all && s1.statement.Seconded? && s2.statement.Seconded?
                        && About(ctx, s1) == About(ctx, s2) ::
          s1.statement.candidate == s2.statement.candidate)
  }

  /** `s2` seconds the candidate that `s1` is about, and `s1`'s sender may vote there. */
  ghost predicate Supports(ctx: Context, s1: SignedStatement, s2: SignedStatement) {
    && s2.statement.Seconded?
    && About(ctx, s1) == About(ctx, s2)
    && ctx.isMemberOf(s1.sender, ctx.groupOf(s2.statement.candidate))
  }

  /** Every validity vote comes after a seconding of its digest, by a member of its group. */
  ghost predicate VotesFollow(ctx: Context, evs: seq<Event>) {
    forall i | 0 <= i < |evs| && evs[i].Import? && evs[i].statement.statement.Valid? ::
      exists s :: s in Imported(evs[..i]) && Supports(ctx, evs[i].statement, s)
  }

  function VoteIn(s: SignedStatement): ValidityVote {
    if s.statement.Seconded? then Issued(s.signature) else Explicit(s.signature)
  }

  // ---- The table as comprehensions over a set of statements ----

  ghost function VotesOn(ctx: Context, all: set<SignedStatement>, d: Digest): map<AuthorityId, ValidityVote>
    requires Consistent(ctx, all)
  {
    map s | s in all && About(ctx, s) == d :: s.sender := VoteIn(s)
  }

  ghost function Proposals(ctx: Context, all: set<SignedStatement>): map<AuthorityId, AuthorityData>
    requires Consistent(ctx, all)
  {
    map s | s in all && s.statement.Seconded? ::
      s.sender := AuthorityData(Some(Proposal(About(ctx, s), s.signature)))
  }

  ghost function Entries(ctx: Context, all: set<SignedStatement>): map<Digest, CandidateData>
    requires Consistent(ctx, all)
  {
    map s | s in all && s.statement.Seconded? ::
      About(ctx, s) := CandidateData(ctx.groupOf(s.statement.candidate), s.statement.candidate,
                                     VotesOn(ctx, all, About(ctx, s)))
  }

  ghost function TableOf(ctx: Context, all: set<SignedStatement>): Tables
    requires Consistent(ctx, all)
  {
    Tables(Proposals(ctx, all), map[], Entries(ctx, all))
  }

  // ---- One more statement ----

  lemma VoteBy(ctx: Context, all: set<SignedStatement>, s: SignedStatement)
    requires Consistent(ctx, all) && s in all
    ensures s.sender in VotesOn(ctx, all, About(ctx, s))
    ensures VotesOn(ctx, all, About(ctx, s))[s.sender] == VoteIn(s)
  {
  }

  lemma VoterOf(ctx: Context, all: set<SignedStatement>, d: Digest, a: AuthorityId) returns (s: SignedStatement)
    requires Consistent(ctx, all) && a in VotesOn(ctx, all, d)
    ensures s in all && About(ctx, s) == d && s.sender == a
  {
    s :| s in all && About(ctx, s) == d && s.sender == a;
  }

  lemma VotesExtend(ctx: Context, all: set<SignedStatement>, s: SignedStatement, d: Digest)
    requires Consistent(ctx, all) && Consistent(ctx, all + {s})
    ensures VotesOn(ctx, all + {s}, d) ==
            if About(ctx, s) == d then VotesOn(ctx, all, d)[s.sender := VoteIn(s)] else VotesOn(ctx, all, d)
  {
    hide *;
    var before, after := VotesOn(ctx, all, d), VotesOn(ctx, all + {s}, d);
    assert s in all + {s};
    if About(ctx, s) == d {
      VoteBy(ctx, all + {s}, s);
    }
    forall a | a in after
      ensures (About(ctx, s) == d && a == s.sender) || (a in before && before[a] == after[a])
    {
      var s1 := VoterOf(ctx, all + {s}, d, a);
      VoteBy(ctx, all + {s}, s1);
      if s1 != s {
        VoteBy(ctx, all, s1);
      }
    }
    forall a | a in before ensures a in after {
      var s1 := VoterOf(ctx, all, d, a);
      assert s1 in all + {s};
      VoteBy(ctx, all + {s}, s1);
    }
  }

  lemma ProposalBy(ctx: Context, all: set<SignedStatement>, s: SignedStatement)
    requires Consistent(ctx, all) && s in all && s.statement.Seconded?
    ensures s.sender in Proposals(ctx, all)
    ensures Proposals(ctx, all)[s.sender].proposal == Some(Proposal(About(ctx, s), s.signature))
  {
  }

  lemma ProposerOf(ctx: Context, all: set<SignedStatement>, a: AuthorityId) returns (s: SignedStatement)
    requires Consistent(ctx, all) && a in Proposals(ctx, all)
    ensures s in all && s.statement.Seconded? && s.sender == a
  {
    s :| s in all && s.statement.Seconded? && s.sender == a;
  }

  lemma ProposalsExtend(ctx: Context, all: set<SignedStatement>, s: SignedStatement)
    requires Consistent(ctx, all) && Consistent(ctx, all + {s})
    ensures Proposals(ctx, all + {s}) ==
            if s.statement.Seconded?
            then Proposals(ctx, all)[s.sender := AuthorityData(Some(Proposal(About(ctx, s), s.signature)))]
            else Proposals(ctx, all)
  {
    hide *;
    var before, after := Proposals(ctx, all), Proposals(ctx, all + {s});
    assert s in all + {s};
    if s.statement.Seconded? {
      ProposalBy(ctx, all + {s}, s);
    }
    forall a | a in after
      ensures (s.statement.Seconded? && a == s.sender) || (a in before && before[a].proposal == after[a].proposal)
    {
      var s1 := ProposerOf(ctx, all + {s}, a);
      if s1 != s {
        ProposalBy(ctx, all, s1);
        ProposalBy(ctx, all + {s}, s1);
      }
    }
    forall a | a in before ensures a in after {
      var s1 := ProposerOf(ctx, all, a);
      assert s1 in all + {s};
      ProposalBy(ctx, all + {s}, s1);
    }
  }

  lemma EntryOf(ctx: Context, all: set<SignedStatement>, s: SignedStatement)
    requires Consistent(ctx, all) && s in all && s.statement.Seconded?
    ensures About(ctx, s) in Entries(ctx, all)
    ensures Entries(ctx, all)[About(ctx, s)] ==
            CandidateData(ctx.groupOf(s.statement.candidate), s.statement.candidate, VotesOn(ctx, all, About(ctx, s)))
  {
  }

  lemma Seconder(ctx: Context, all: set<SignedStatement>, d: Digest) returns (s: SignedStatement)
    requires Consistent(ctx, all) && d in Entries(ctx, all)
    ensures s in all && s.statement.Seconded? && About(ctx, s) == d
  {
    s :| s in all && s.statement.Seconded? && About(ctx, s) == d;
  }

  lemma EntriesExtend(ctx: Context, all: set<SignedStatement>, s: SignedStatement)
    requires Consistent(ctx, all) && Consistent(ctx, all + {s})
    requires s.statement.Valid? ==> About(ctx, s) in Entries(ctx, all)
    ensures Entries(ctx, all + {s}) ==
            var d := About(ctx, s);
            var c := if s.statement.Seconded? then s.statement.candidate else Entries(ctx, all)[d].candidate;
            Entries(ctx, all)[d := CandidateData(ctx.groupOf(c), c, VotesOn(ctx, all, d)[s.sender := VoteIn(s)])]
  {
    hide *;
    var before, after, d := Entries(ctx, all), Entries(ctx, all + {s}), About(ctx, s);
    assert s in all + {s};
    forall x | x in after ensures x == d || (x in before && before[x] == after[x]) {
      var s1 := Seconder(ctx, all + {s}, x);
      EntryOf(ctx, all + {s}, s1);
      if s1 != s {
        EntryOf(ctx, all, s1);
        VotesExtend(ctx, all, s, x);
      }
    }
    forall x | x in before ensures x in after {
      var s1 := Seconder(ctx, all, x);
      assert s1 in all + {s};
      EntryOf(ctx, all + {s}, s1);
    }
    VotesExtend(ctx, all, s, d);
    var s2 := s;
    if s.statement.Valid? {
      s2 := Seconder(ctx, all, d);
      EntryOf(ctx, all, s2);
    }
    assert s2 in all + {s};
    EntryOf(ctx, all + {s}, s2);
  }

  // ---- What an import does to an arbitrary table ----

  lemma DuplicateIgnored(ctx: Context, t: Tables, s: SignedStatement)
    requires VoteOf(t, About(ctx, s), s.sender) == Some(VoteIn(s))
    requires ctx.isMemberOf(s.sender, t.candidateVotes[About(ctx, s)].groupId)
    requires s.statement.Seconded? ==>
      && ctx.isMemberOf(s.sender, ctx.groupOf(s.statement.candidate))
      && ProposalOf(t, s.sender).Some?
      && ProposalOf(t, s.sender).value.digest == About(ctx, s)
    ensures ImportStatement(ctx, t, s) == (t, Ignored)
  {
  }

  lemma VoteAccepted(ctx: Context, t: Tables, s: SignedStatement, data: CandidateData)
    requires s.statement.Valid? && About(ctx, s) in t.candidateVotes && t.candidateVotes[About(ctx, s)] == data
    requires ctx.isMemberOf(s.sender, data.groupId) && s.sender !in data.validityVotes
    ensures ImportStatement(ctx, t, s).0 == t.(candidateVotes := t.candidateVotes[
              About(ctx, s) := data.(validityVotes := data.validityVotes[s.sender := VoteIn(s)])])
    ensures ImportStatement(ctx, t, s).1.Accepted?
  {
  }

  lemma SecondingAccepted(ctx: Context, t: Tables, s: SignedStatement, data: CandidateData)
    requires s.statement.Seconded? && ctx.isMemberOf(s.sender, ctx.groupOf(s.statement.candidate))
    requires s.sender !in t.authorityData
    requires data == if About(ctx, s) in t.candidateVotes then t.candidateVotes[About(ctx, s)]
                     else CandidateData(ctx.groupOf(s.statement.candidate), s.statement.candidate, map[])
    requires ctx.isMemberOf(s.sender, data.groupId) && s.sender !in data.validityVotes
    ensures ImportStatement(ctx, t, s).0 == t.(
              authorityData := t.authorityData[s.sender := AuthorityData(Some(Proposal(About(ctx, s), s.signature)))],
              candidateVotes := t.candidateVotes[
                About(ctx, s) := data.(validityVotes := data.validityVotes[s.sender := VoteIn(s)])])
    ensures ImportStatement(ctx, t, s).1.Accepted?
  {
  }

  // ---- The same on a comprehension ----

  /** A statement already in the set leaves the table as it is. */
  lemma RepeatedImport(ctx: Context, all: set<SignedStatement>, s: SignedStatement, s2: SignedStatement)
    requires Consistent(ctx, all) && s in all && s2 in all && Supports(ctx, s, s2)
    ensures ImportStatement(ctx, TableOf(ctx, all), s) == (TableOf(ctx, all), Ignored)
  {
    hide Entries, VotesOn, Proposals;
    EntryOf(ctx, all, s2);
    VoteBy(ctx, all, s);
    if s.statement.Seconded? {
      ProposalBy(ctx, all, s);
    }
    DuplicateIgnored(ctx, TableOf(ctx, all), s);
  }

  /** A sender's new statement finds no earlier vote of its own on that digest. */
  lemma NoEarlierVote(ctx: Context, all: set<SignedStatement>, s: SignedStatement)
    requires Consistent(ctx, all) && Consistent(ctx, all + {s}) && s !in all
    ensures s.sender !in VotesOn(ctx, all, About(ctx, s))
    ensures s.statement.Seconded? ==> s.sender !in Proposals(ctx, all)
  {
    assert s in all + {s};
    if s.sender in VotesOn(ctx, all, About(ctx, s)) {
      var s1 :| s1 in all && About(ctx, s1) == About(ctx, s) && s1.sender == s.sender;
      assert s1 in all + {s} && Conflict(ctx, s1, s);
      assert false;
    }
    if s.statement.Seconded? && s.sender in Proposals(ctx, all) {
      var s1 :| s1 in all && s1.statement.Seconded? && s1.sender == s.sender;
      assert s1 in all + {s} && Conflict(ctx, s1, s);
      assert false;
    }
  }

  lemma NewVote(ctx: Context, all: set<SignedStatement>, s: SignedStatement, s2: SignedStatement)
    requires Consistent(ctx, all) && Consistent(ctx, all + {s}) && s !in all
    requires s.statement.Valid? && s2 in all && Supports(ctx, s, s2)
    ensures ImportStatement(ctx, TableOf(ctx, all), s).0 == TableOf(ctx, all + {s})
    ensures ImportStatement(ctx, TableOf(ctx, all), s).1.Accepted?
  {
    hide Entries, VotesOn, Proposals, Consistent, ImportStatement;
    NoEarlierVote(ctx, all, s);
    EntryOf(ctx, all, s2);
    VoteAccepted(ctx, TableOf(ctx, all), s, Entries(ctx, all)[About(ctx, s)]);
    EntriesExtend(ctx, all, s);
    ProposalsExtend(ctx, all, s);
  }

  /** Every validity vote is about a digest someone seconded. */
  ghost predicate VotesOnlySeconded(ctx: Context, all: set<SignedStatement>) {
    forall s | s in all && s.statement.Valid? ::
      exists s2 :: s2 in all && s2.statement.Seconded? && About(ctx, s2) == About(ctx, s)
  }

  lemma UnsecondedHasNoVotes(ctx: Context, all: set<SignedStatement>, d: Digest)
    requires Consistent(ctx, all) && VotesOnlySeconded(ctx, all) && d !in Entries(ctx, all)
    ensures VotesOn(ctx, all, d) == map[]
  {
  }

  lemma SameCandidate(ctx: Context, all: set<SignedStatement>, s1: SignedStatement, s: SignedStatement)
    requires Consistent(ctx, all + {s}) && s1 in all
    requires s1.statement.Seconded? && s.statement.Seconded? && About(ctx, s1) == About(ctx, s)
    ensures s1.statement.candidate == s.statement.candidate
  {
  }

  lemma EntryFor(ctx: Context, all: set<SignedStatement>, s: SignedStatement)
    requires Consistent(ctx, all) && Consistent(ctx, all + {s})
    requires s.statement.Seconded? && VotesOnlySeconded(ctx, all)
    ensures var data := CandidateData(ctx.groupOf(s.statement.candidate), s.statement.candidate,
                                      VotesOn(ctx, all, About(ctx, s)));
      data == if About(ctx, s) in Entries(ctx, all) then Entries(ctx, all)[About(ctx, s)]
              else data.(validityVotes := map[])
  {
    hide Entries, VotesOn, Consistent, VotesOnlySeconded;
    var d := About(ctx, s);
    if d in Entries(ctx, all) {
      var s1 := Seconder(ctx, all, d);
      SameCandidate(ctx, all, s1, s);
      EntryOf(ctx, all, s1);
    } else {
      UnsecondedHasNoVotes(ctx, all, d);
    }
  }

  lemma NewSeconding(ctx: Context, all: set<SignedStatement>, s: SignedStatement)
    requires Consistent(ctx, all) && Consistent(ctx, all + {s}) && s !in all
    requires s.statement.Seconded? && VotesOnlySeconded(ctx, all)
    ensures ImportStatement(ctx, TableOf(ctx, all), s).0 == TableOf(ctx, all + {s})
    ensures ImportStatement(ctx, TableOf(ctx, all), s).1.Accepted?
  {
    var c := s.statement.candidate;
    assert s in all + {s} && ctx.isMemberOf(s.sender, ctx.groupOf(c));
    hide Entries, VotesOn, Proposals, Consistent, VotesOnlySeconded, ImportStatement;
    NoEarlierVote(ctx, all, s);
    EntryFor(ctx, all, s);
    SecondingAccepted(ctx, TableOf(ctx, all), s, CandidateData(ctx.groupOf(c), c, VotesOn(ctx, all, About(ctx, s))));
    EntriesExtend(ctx, all, s);
    ProposalsExtend(ctx, all, s);
  }

  lemma ConsistentSubset(ctx: Context, some: set<SignedStatement>, all: set<SignedStatement>)
    requires Consistent(ctx, all) && some <= all
    ensures Consistent(ctx, some)
  {
  }

  lemma FollowingVotesSeconded(ctx: Context, evs: seq<Event>)
    requires VotesFollow(ctx, evs)
    ensures VotesOnlySeconded(ctx, Imported(evs))
  {
  }

  lemma SecondingSupportsItself(ctx: Context, all: set<SignedStatement>, s: SignedStatement)
    requires Consistent(ctx, all) && s in all && s.statement.Seconded?
    ensures Supports(ctx, s, s)
  {
  }

  lemma StatementImported(ctx: Context, all: set<SignedStatement>, s: SignedStatement)
    requires Consistent(ctx, all) && Consistent(ctx, all + {s}) && VotesOnlySeconded(ctx, all)
    requires s.statement.Valid? ==> exists s2 :: s2 in all && Supports(ctx, s, s2)
    ensures ImportStatement(ctx, TableOf(ctx, all), s).0 == TableOf(ctx, all + {s})
    ensures !ImportStatement(ctx, TableOf(ctx, all), s).1.Panicked?
  {
    hide *;
    if s in all {
      assert all + {s} == all;
      if s.statement.Valid? {
        var s2 :| s2 in all && Supports(ctx, s, s2);
        RepeatedImport(ctx, all, s, s2);
      } else {
        SecondingSupportsItself(ctx, all, s);
        RepeatedImport(ctx, all, s, s);
      }
    } else if s.statement.Valid? {
      var s2 :| s2 in all && Supports(ctx, s, s2);
      NewVote(ctx, all, s, s2);
    } else {
      NewSeconding(ctx, all, s);
    }
  }

  lemma VotesFollowPrefix(ctx: Context, evs: seq<Event>, e: Event)
    requires VotesFollow(ctx, evs + [e])
    ensures VotesFollow(ctx, evs)
    ensures e.Import? && e.statement.statement.Valid? ==>
              exists s :: s in Imported(evs) && Supports(ctx, e.statement, s)
  {
    var all := evs + [e];
    forall i | 0 <= i < |evs| && evs[i].Import? && evs[i].statement.statement.Valid?
      ensures exists s :: s in Imported(evs[..i]) && Supports(ctx, evs[i].statement, s)
    {
      assert all[i] == evs[i] && all[..i] == evs[..i];
    }
    assert all[|evs|] == e && all[..|evs|] == evs;
  }

  lemma ImportedExtends(evs: seq<Event>, e: Event)
    ensures Imported(evs + [e]) == if e.Import? then Imported(evs) + {e.statement} else Imported(evs)
  {
  }

  lemma OneMoreEvent(ctx: Context, evs: seq<Event>, e: Event)
    requires Consistent(ctx, Imported(evs)) && Consistent(ctx, Imported(evs + [e])) && VotesFollow(ctx, evs + [e])
    requires Run(ctx, evs) == Some(TableOf(ctx, Imported(evs)))
    ensures Run(ctx, evs + [e]) == Some(TableOf(ctx, Imported(evs + [e])))
  {
    hide Consistent, VotesFollow, VotesOnlySeconded, Entries, Proposals, Run, ImportStatement, Imported, Supports;
    RunStep(ctx, evs, e);
    ImportedExtends(evs, e);
    VotesFollowPrefix(ctx, evs, e);
    FollowingVotesSeconded(ctx, evs);
    if e.Import? {
      StatementImported(ctx, Imported(evs), e.statement);
    }
  }

  /** After an honest run the table is the comprehension over what was imported. */
  lemma {:induction false} TableIsComprehension(ctx: Context, evs: seq<Event>)
    requires Consistent(ctx, Imported(evs)) && VotesFollow(ctx, evs)
    ensures Run(ctx, evs) == Some(TableOf(ctx, Imported(evs)))
  {
    hide Consistent, VotesFollow, Entries, Proposals, VotesOn, ImportStatement;
    if evs == [] {
      EmptyTable(ctx);
    } else {
      var before, e := evs[..|evs| - 1], evs[|evs| - 1];
      assert evs == before + [e];
      ConsistentSubset(ctx, Imported(before), Imported(evs));
      VotesFollowPrefix(ctx, before, e);
      TableIsComprehension(ctx, before);
      OneMoreEvent(ctx, before, e);
    }
  }

  lemma EmptyTable(ctx: Context)
    ensures Imported([]) == {} && Consistent(ctx, {}) && TableOf(ctx, {}) == EMPTY
  {
  }

  /** Two honest runs that import the same statements end in the same table. */
  lemma {:induction false} OrderIrrelevant(ctx: Context, evs1: seq<Event>, evs2: seq<Event>)
    requires Imported(evs1) == Imported(evs2) && Consistent(ctx, Imported(evs1))
    requires VotesFollow(ctx, evs1) && VotesFollow(ctx, evs2)
    ensures Run(ctx, evs1).Some? && Run(ctx, evs1) == Run(ctx, evs2)
    ensures Run(ctx, evs1).value.misbehavior == map[]
  {
    TableIsComprehension(ctx, evs1);
    TableIsComprehension(ctx, evs2);
  }
}

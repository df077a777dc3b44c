/**
 Draining the recorded misbehavior. The iterator visits the map's entries in an
 arbitrary order and pops each entry's list, which it has reversed beforehand.
 */
module MisbehaviorDrain {
  import opened Options
  import opened Statements
  import opened StatementTable
  import opened StatementRuns

  type Item = (AuthorityId, Misbehavior)
  type Entry = (AuthorityId, seq<Misbehavior>)

  function Reversed(ms: seq<Misbehavior>): seq<Misbehavior> {
    if ms == [] then [] else Reversed(ms[1..]) + [ms[0]]
  }

  /** The items of one entry, in the order in which they were recorded. */
  function Tagged(a: AuthorityId, ms: seq<Misbehavior>): seq<Item> {
    if ms == [] then [] else [(a, ms[0])] + Tagged(a, ms[1..])
  }

  function Flatten(entries: seq<Entry>): seq<Item> {
    if entries == [] then [] else Tagged(entries[0].0, entries[0].1) + Flatten(entries[1..])
  }

  /** The misbehavior reported for `a` in a list of items. */
  function ReportedFor(items: seq<Item>, a: AuthorityId): seq<Misbehavior> {
    if items == [] then []
    else (if items[0].0 == a then [items[0].1] else []) + ReportedFor(items[1..], a)
  }

  /** `entries` visits every key of `m` exactly once. */
  ghost predicate Enumerates(m: map<AuthorityId, seq<Misbehavior>>, entries: seq<Entry>) {
    && (forall i | 0 <= i < |entries| :: entries[i].0 in m && entries[i].1 == m[entries[i].0])
    && (forall i, j | 0 <= i < j < |entries| :: entries[i].0 != entries[j].0)
    && (forall a | a in m :: (a, m[a]) in entries)
  }

  ghost predicate NoneEmpty(entries: seq<Entry>) {
    forall i | 0 <= i < |entries| :: entries[i].1 != []
  }

  lemma {:induction false} ReversedLast(ms: seq<Misbehavior>)
    requires ms != []
    ensures Reversed(ms) != []
    ensures Reversed(ms)[|Reversed(ms)| - 1] == ms[0]
    ensures Reversed(ms)[..|Reversed(ms)| - 1] == Reversed(ms[1..])
  {
  }

  /** Visits the entries of a map in whatever order the map yields them. */
  method Visit(m: map<AuthorityId, seq<Misbehavior>>) returns (entries: seq<Entry>)
    ensures Enumerates(m, entries)
  {
    entries := [];
    var rest := m.Keys;
    while rest != {}
      invariant rest <= m.Keys
      invariant forall i | 0 <= i < |entries| :: entries[i].0 in m.Keys - rest && entries[i].1 == m[entries[i].0]
      invariant forall i, j | 0 <= i < j < |entries| :: entries[i].0 != entries[j].0
      invariant forall a | a in m.Keys - rest :: (a, m[a]) in entries
      decreases rest
    {
      var a :| a in rest;
      rest := rest - {a};
      entries := entries + [(a, m[a])];
    }
  }

  class DrainMisbehaviors {
    var drain: seq<Entry>
    /** The authority being reported and its remaining items, next one last. */
    var inProgress: Option<Entry>
    /** The remaining items of the authority in progress, next one first. */
    ghost var current: seq<Misbehavior>

    ghost predicate Valid()
      reads this
    {
      match inProgress
      case None => current == []
      case Some(e) => e.1 == Reversed(current)
    }

    /** Everything the iterator has still to yield. */
    ghost function Pending(): seq<Item>
      reads this
    {
      (if inProgress.Some? then Tagged(inProgress.value.0, current) else []) + Flatten(drain)
    }

    constructor (entries: seq<Entry>)
      ensures Valid() && drain == entries && Pending() == Flatten(entries)
    {
      drain, inProgress, current := entries, None, [];
    }

    method MaybeItem() returns (r: Option<Item>)
      requires Valid()
      modifies this`inProgress, this`current
      ensures Valid()
      ensures r.None? <==> old(current) == []
      ensures r.None? ==> current == [] && inProgress == old(inProgress)
      ensures r.Some? ==> [r.value] + Pending() == old(Pending()) && |current| < |old(current)|
    {
      if inProgress.None? {
        return None;
      }
      var (a, stack) := inProgress.value;
      if stack == [] {
        assert current == [] by {
          if current != [] {
            ReversedLast(current);
          }
        }
        return None;
      }
      assert current != [];
      ReversedLast(current);
      r := Some((a, stack[|stack| - 1]));
      inProgress := Some((a, stack[..|stack| - 1]));
      current := current[1..];
    }

    /**
     Yields the next pending item. It stops early exactly when the next entry of the
     map is an empty list.
     */
    method Next() returns (r: Option<Item>)
      requires Valid()
      modifies this
      ensures Valid() && (NoneEmpty(old(drain)) ==> NoneEmpty(drain))
      ensures (if r.Some? then [r.value] else []) + Pending() == old(Pending())
      ensures r.None? <==> old(current) == [] && (old(drain) == [] || old(drain)[0].1 == [])
      ensures r.None? && NoneEmpty(old(drain)) ==> Pending() == []
      ensures r.Some? ==> |drain| < |old(drain)| || (drain == old(drain) && |current| < |old(current)|)
    {
      r := MaybeItem();
      if r.None? {
        if drain == [] {
          inProgress, current := None, [];
        } else {
          var (a, ms) := drain[0];
          inProgress, current := Some((a, Reversed(ms))), ms;
          drain := drain[1..];
        }
        r := MaybeItem();
      }
    }
  }

  /** Iterates to the first `None`. */
  method Exhaust(it: DrainMisbehaviors) returns (items: seq<Item>)
    requires it.Valid()
    modifies it
    ensures NoneEmpty(old(it.drain)) ==> items == old(it.Pending())
  {
    hide *;
    items := [];
    var r := it.Next();
    while r.Some?
      invariant it.Valid()
      invariant NoneEmpty(old(it.drain)) ==> NoneEmpty(it.drain)
      invariant items + (if r.Some? then [r.value] else []) + it.Pending() == old(it.Pending())
      invariant r.None? && NoneEmpty(old(it.drain)) ==> it.Pending() == []
      decreases r.Some?, |it.drain|, |it.current|
    {
      items := items + [r.value];
      r := it.Next();
    }
  }

  /** Takes the recorded misbehavior out of the table and iterates over all of it. */
  method DrainAll(t: Table) returns (items: seq<Item>, ghost entries: seq<Entry>)
    modifies t`detectedMisbehavior
    ensures t.detectedMisbehavior == map[]
    ensures Enumerates(old(t.detectedMisbehavior), entries)
    ensures ListsNonEmpty(old(t.Contents())) ==> items == Flatten(entries)
  {
    var visited := Visit(t.detectedMisbehavior);
    entries := visited;
    t.detectedMisbehavior := map[];
    var it := new DrainMisbehaviors(visited);
    items := Exhaust(it);
  }

  // ---- What a complete drain reports ----

  lemma {:induction false} ReportedAppend(xs: seq<Item>, ys: seq<Item>, a: AuthorityId)
    ensures ReportedFor(xs + ys, a) == ReportedFor(xs, a) + ReportedFor(ys, a)
  {
    if xs == [] {
      assert xs + ys == ys;
    } else {
      assert (xs + ys)[1..] == xs[1..] + ys;
      ReportedAppend(xs[1..], ys, a);
    }
  }

  lemma {:induction false} ReportedTagged(b: AuthorityId, ms: seq<Misbehavior>, a: AuthorityId)
    ensures ReportedFor(Tagged(b, ms), a) == if a == b then ms else []
  {
    if ms != [] {
      assert Tagged(b, ms)[1..] == Tagged(b, ms[1..]);
      ReportedTagged(b, ms[1..], a);
    }
  }

  lemma {:induction false} ReportedAbsent(entries: seq<Entry>, a: AuthorityId)
    requires forall i | 0 <= i < |entries| :: entries[i].0 != a
    ensures ReportedFor(Flatten(entries), a) == []
  {
    if entries != [] {
      ReportedAppend(Tagged(entries[0].0, entries[0].1), Flatten(entries[1..]), a);
      ReportedTagged(entries[0].0, entries[0].1, a);
      ReportedAbsent(entries[1..], a);
    }
  }

  lemma {:induction false} ReportedPresent(entries: seq<Entry>, k: nat)
    requires k < |entries|
    requires forall i, j | 0 <= i < j < |entries| :: entries[i].0 != entries[j].0
    ensures ReportedFor(Flatten(entries), entries[k].0) == entries[k].1
  {
    var a := entries[k].0;
    ReportedAppend(Tagged(entries[0].0, entries[0].1), Flatten(entries[1..]), a);
    ReportedTagged(entries[0].0, entries[0].1, a);
    if k == 0 {
      ReportedAbsent(entries[1..], a);
    } else {
      ReportedPresent(entries[1..], k - 1);
    }
  }

  lemma {:induction false} FlattenAppend(xs: seq<Entry>, ys: seq<Entry>)
    ensures Flatten(xs + ys) == Flatten(xs) + Flatten(ys)
  {
    if xs == [] {
      assert xs + ys == ys;
    } else {
      assert (xs + ys)[1..] == xs[1..] + ys;
      FlattenAppend(xs[1..], ys);
    }
  }

  lemma FlattenStretch(entries: seq<Entry>, k: nat)
    requires k < |entries|
    ensures Flatten(entries) ==
            Flatten(entries[..k]) + Tagged(entries[k].0, entries[k].1) + Flatten(entries[k + 1..])
  {
    hide Tagged;
    assert entries == entries[..k] + entries[k..];
    FlattenAppend(entries[..k], entries[k..]);
    assert Flatten(entries[k..]) == Tagged(entries[k].0, entries[k].1) + Flatten(entries[k + 1..]) by {
      assert entries[k..][0] == entries[k] && entries[k..][1..] == entries[k + 1..];
    }
  }

  /** Each authority's list comes out once, in order, as one uninterrupted stretch. */
  lemma {:induction false} EnumerationReports(m: map<AuthorityId, seq<Misbehavior>>,
                                              entries: seq<Entry>, a: AuthorityId)
    requires Enumerates(m, entries)
    ensures ReportedFor(Flatten(entries), a) == if a in m then m[a] else []
    ensures a in m ==> exists before, after :: Flatten(entries) == before + Tagged(a, m[a]) + after
  {
    if a in m {
      var k :| 0 <= k < |entries| && entries[k] == (a, m[a]);
      ReportedPresent(entries, k);
      FlattenStretch(entries, k);
    } else {
      ReportedAbsent(entries, a);
    }
  }

  /** Draining a reachable table reports everything: no entry it visits is an empty list. */
  lemma {:induction false} DrainComplete(ctx: Context, evs: seq<Event>, entries: seq<Entry>)
    requires Run(ctx, evs).Some? && Enumerates(Run(ctx, evs).value.misbehavior, entries)
    ensures ListsNonEmpty(Run(ctx, evs).value) && NoneEmpty(entries)
    ensures forall a :: ReportedFor(Flatten(entries), a) ==
              if a in Run(ctx, evs).value.misbehavior then Run(ctx, evs).value.misbehavior[a] else []
  {
    RunInvariant(ctx, evs);
    hide Run;
    forall a ensures ReportedFor(Flatten(entries), a) ==
              if a in Run(ctx, evs).value.misbehavior then Run(ctx, evs).value.misbehavior[a] else []
    {
      EnumerationReports(Run(ctx, evs).value.misbehavior, entries, a);
    }
  }
}

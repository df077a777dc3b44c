/**
 Who is who on the two chains, from the actions of a run alone: factories, vehicles and
 their owners, initialised vehicles, subscribed drivers; and calls of the wrong origin.
 */
module Registry {
  import opened Bytes
  import opened CompositeKeys
  import opened Options
  import opened Renault
  import opened Insurance
  import opened CrossChain

  /** `f` was given at genesis, or added by root. */
  ghost predicate KnownFactory(init: Option<AccountId>, acts: seq<Action>, f: AccountId) {
    init == Some(f) || NewFactory(Root, f) in acts
  }

  /** The first known factory to have registered `v`; at genesis `v` may be its own. */
  ghost function OwnerOf(init: Option<AccountId>, acts: seq<Action>, v: AccountId): Option<AccountId> {
    if init == Some(v) then Some(v)
    else if acts == [] then None
    else
      var before, a := acts[..|acts| - 1], acts[|acts| - 1];
      var owner := OwnerOf(init, before, v);
      if owner.Some? then owner
      else if a.NewVehicle? && a.vehicle == v && a.origin.Signed? && KnownFactory(init, before, a.origin.who)
      then Some(a.origin.who) else None
  }

  /** `v` started itself after it was registered, or was initialised at genesis. */
  ghost predicate Initialised(init: Option<AccountId>, acts: seq<Action>, v: AccountId) {
    || init == Some(v)
    || exists i ::
         0 <= i < |acts| && acts[i] == StartVehicle(Signed(v), v) && OwnerOf(init, acts[..i], v).Some?
  }

  /** `d` was subscribed at genesis, or signed up. */
  ghost predicate Subscribed(init: Option<AccountId>, acts: seq<Action>, d: AccountId) {
    init == Some(d) || DriverSubscribes(Signed(d)) in acts
  }

  function RecordedOwner(st: State, v: AccountId): Option<AccountId> {
    if v in st.vehicles then Some(st.vehicles[v]) else None
  }

  lemma InitialisedLast(init: Option<AccountId>, acts: seq<Action>, a: Action, v: AccountId)
    ensures Initialised(init, acts + [a], v) <==>
            Initialised(init, acts, v) || (a == StartVehicle(Signed(v), v) && OwnerOf(init, acts, v).Some?)
  {
    hide OwnerOf;
    var all := acts + [a];
    assert all[..|acts|] == acts && all[|acts|] == a;
    assert forall i | 0 <= i < |acts| :: all[i] == acts[i] && all[..i] == acts[..i];
  }

  lemma OwnerLast(init: Option<AccountId>, acts: seq<Action>, a: Action, v: AccountId)
    ensures OwnerOf(init, acts + [a], v) ==
            if OwnerOf(init, acts, v).Some? then OwnerOf(init, acts, v)
            else if a.NewVehicle? && a.vehicle == v && a.origin.Signed? && KnownFactory(init, acts, a.origin.who)
            then Some(a.origin.who) else None
  {
    assert (acts + [a])[..|acts|] == acts;
  }

  /** The registry of the manufacturer is what the actions make it. */
  ghost predicate RegistryMatches(init: Option<AccountId>, acts: seq<Action>, st: State) {
    && (forall f :: f in st.factories <==> KnownFactory(init, acts, f))
    && (forall v :: RecordedOwner(st, v) == OwnerOf(init, acts, v))
    && (forall v :: IsVehicle(st, v) <==> Initialised(init, acts, v))
  }

  lemma OtherActionsKeepRegistry(sha: Hasher, w: World, a: Action)
    requires !a.NewFactory? && !a.NewVehicle? && !a.StartVehicle?
    ensures var st, st' := w.renault, Apply(sha, w, a).renault;
      st'.factories == st.factories && st'.vehicles == st.vehicles && st'.status == st.status
  {
    hide Key;
  }

  lemma StepMatches(sha: Hasher, init: Option<AccountId>, acts: seq<Action>, w: World, a: Action)
    requires RegistryMatches(init, acts, w.renault)
    ensures RegistryMatches(init, acts + [a], Apply(sha, w, a).renault)
  {
    var all, st, st' := acts + [a], w.renault, Apply(sha, w, a).renault;
    if !a.NewFactory? && !a.NewVehicle? && !a.StartVehicle? {
      OtherActionsKeepRegistry(sha, w, a);
    }
    hide Report, DeclareAccident, HandleRequest, HandleResponse, OwnerOf, Initialised;
    forall f ensures f in st'.factories <==> KnownFactory(init, all, f) {
      assert NewFactory(Root, f) in all <==> NewFactory(Root, f) in acts || NewFactory(Root, f) == a;
      assert f in st.factories <==> KnownFactory(init, acts, f);
    }
    forall v ensures RecordedOwner(st', v) == OwnerOf(init, all, v) {
      OwnerLast(init, acts, a, v);
      assert RecordedOwner(st, v) == OwnerOf(init, acts, v);
    }
    forall v ensures IsVehicle(st', v) <==> Initialised(init, all, v) {
      InitialisedLast(init, acts, a, v);
      assert IsVehicle(st, v) <==> Initialised(init, acts, v);
      assert RecordedOwner(st, v) == OwnerOf(init, acts, v);
    }
  }

  lemma GenesisMatches(init: Option<AccountId>)
    ensures RegistryMatches(init, [], Genesis(init))
  {
  }

  /** In every run the registry follows from the actions, for any hash. */
  lemma {:induction false} RegistryFromActions(sha: Hasher, init: Option<AccountId>, driver: Option<AccountId>,
                                               acts: seq<Action>)
    ensures RegistryMatches(init, acts, Run(sha, Begin(init, driver), acts).renault)
  {
    hide Apply, RegistryMatches;
    if acts == [] {
      GenesisMatches(init);
    } else {
      var before, a := acts[..|acts| - 1], acts[|acts| - 1];
      assert acts == before + [a];
      RegistryFromActions(sha, init, driver, before);
      StepMatches(sha, init, before, Run(sha, Begin(init, driver), before), a);
    }
  }

  /** How each call of the registry is answered in a run. */
  lemma {:induction false} RegistryAnswers(sha: Hasher, init: Option<AccountId>, driver: Option<AccountId>,
                                           acts: seq<Action>, who: AccountId, v: AccountId)
    ensures var st := Run(sha, Begin(init, driver), acts).renault;
      && CreateFactory(st, Root, v).1 == (if KnownFactory(init, acts, v) then Err(FactoryAlreadyStored) else Ok(()))
      && CreateVehicle(st, Signed(who), v).1 ==
         (if !KnownFactory(init, acts, who) then Err(UnknownFactory)
          else if OwnerOf(init, acts, v).Some? then Err(VehicleAlreadyStored) else Ok(()))
      && InitVehicle(st, Signed(who), v).1 ==
         (if OwnerOf(init, acts, who).None? then Err(UnknownVehicle)
          else if who != v then Err(VehicleNotMatchingOrigin) else Ok(()))
  {
    hide Run, OwnerOf, KnownFactory;
    RegistryFromActions(sha, init, driver, acts);
    var st := Run(sha, Begin(init, driver), acts).renault;
    assert RecordedOwner(st, v) == OwnerOf(init, acts, v) && RecordedOwner(st, who) == OwnerOf(init, acts, who);
  }

  lemma StepSubscribes(sha: Hasher, w: World, a: Action)
    ensures Apply(sha, w, a).insurance.subscriptions ==
            w.insurance.subscriptions + if a.DriverSubscribes? && a.origin.Signed? then {a.origin.who} else {}
  {
    hide Key;
  }

  /** In every run the subscribed drivers follow from the actions. */
  lemma {:induction false} SubscribersFromActions(sha: Hasher, factory: Option<AccountId>, init: Option<AccountId>,
                                                  acts: seq<Action>, d: AccountId)
    ensures d in Run(sha, Begin(factory, init), acts).insurance.subscriptions <==> Subscribed(init, acts, d)
  {
    hide Apply;
    if acts != [] {
      var before, a := acts[..|acts| - 1], acts[|acts| - 1];
      assert acts == before + [a];
      SubscribersFromActions(sha, factory, init, before, d);
      StepSubscribes(sha, Run(sha, Begin(factory, init), before), a);
    }
  }

  // ---- Origins ----

  /** The manufacturer's calls refuse the wrong kind of origin and change nothing. */
  lemma RenaultOrigins(sha: Hasher, st: State, origin: Origin, who: AccountId, n: u32, data: DataHash,
                       verdict: nat, sent: bool)
    ensures !origin.Root? ==> CreateFactory(st, origin, who) == (st, Err(BadOrigin))
    ensures !origin.Signed? ==>
      && CreateVehicle(st, origin, who) == (st, Err(BadOrigin))
      && InitVehicle(st, origin, who) == (st, Err(BadOrigin))
      && ReportAccident(sha, st, origin, data) == (st, Err(BadOrigin))
      && SetIpfsStatus(st, origin, data, verdict) == (st, Err(BadOrigin))
    ensures !origin.Sibling? ==> RequestData(sha, st, origin, who, n, sent) == Err(BadOrigin)
  {
  }

  /** So do the insurer's. */
  lemma InsuranceOrigins(sha: Hasher, b: Book, origin: Origin, v: AccountId, n: u32, data: DataHash,
                         sent: bool, rolledBack: bool)
    ensures !origin.Signed? ==>
      && SignUp(b, origin) == (b, Refused(NotSigned))
      && Declare(sha, b, origin, v, n, sent, rolledBack) == (b, Refused(NotSigned))
    ensures !origin.Sibling? ==> ReceiveData(sha, b, origin, v, n, data) == (b, Refused(NotSibling))
  {
  }
}

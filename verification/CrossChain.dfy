/**
 The two chains together with the messages between them. A message once sent may be
 delivered at any later time, any number of times, in any order, or never.
 */
module CrossChain {
  import opened Bytes
  import opened CompositeKeys
  import opened Options
  import opened Renault
  import opened Insurance

  datatype Message =
    | Request(vehicle: AccountId, count: u32)
    | Response(vehicle: AccountId, count: u32, data: DataHash)

  datatype World = World(
    renault: State,
    insurance: Book,
    network: set<Message>,
    hashed: set<(AccountId, u32)>)

  /** The chain identifiers of the manufacturer and the insurer. */
  const RENAULT := Sibling(2000)
  const INSURER := Sibling(3000)

  datatype Action =
    | NewFactory(origin: Origin, factory: AccountId)
    | NewVehicle(origin: Origin, vehicle: AccountId)
    | StartVehicle(origin: Origin, vehicle: AccountId)
    | VehicleReports(origin: Origin, data: DataHash)
    | IpfsChecked(origin: Origin, data: DataHash, verdict: nat)
    | DriverSubscribes(origin: Origin)
    | DriverDeclares(origin: Origin, vehicle: AccountId, count: u32, sent: bool, rolledBack: bool)
    | RequestArrives(vehicle: AccountId, count: u32, sent: bool)
    | ResponseArrives(vehicle: AccountId, count: u32, data: DataHash)

  function Begin(factory: Option<AccountId>, driver: Option<AccountId>): World {
    World(Genesis(factory), Open(driver), {}, {})
  }

  /** Computing the key of `who` and `n` adds to the inputs that have been hashed. */
  function Hashing(w: World, who: AccountId, n: u32): World {
    w.(hashed := w.hashed + {(who, n)})
  }

  function Report(sha: Hasher, w: World, origin: Origin, data: DataHash): World {
    var w1 :=
      if origin.Signed? && IsVehicle(w.renault, origin.who)
      then Hashing(w, origin.who, Count(w.renault, origin.who)) else w;
    w1.(renault := ReportAccident(sha, w.renault, origin, data).0)
  }

  function DeclareAccident(sha: Hasher, w: World, origin: Origin, v: AccountId, n: u32,
                           sent: bool, rolledBack: bool): World
  {
    var w1 :=
      if origin.Signed? && origin.who in w.insurance.subscriptions
      then Hashing(w, origin.who, NextNumber(w.insurance, origin.who)) else w;
    var (book, r) := Declare(sha, w.insurance, origin, v, n, sent, rolledBack);
    w1.(insurance := book, network := if r.Done? then w.network + {Request(v, n)} else w.network)
  }

  function HandleRequest(sha: Hasher, w: World, v: AccountId, n: u32, sent: bool): World {
    if Request(v, n) !in w.network then w
    else
      var w1 := if IsVehicle(w.renault, v) && n > 0 then Hashing(w, v, n - 1) else w;
      match RequestData(sha, w.renault, INSURER, v, n, sent)
      case Ok(data) => w1.(network := w1.network + {Response(v, n, data)})
      case Err(_) => w1
  }

  function HandleResponse(sha: Hasher, w: World, v: AccountId, n: u32, data: DataHash): World {
    if Response(v, n, data) !in w.network then w
    else Hashing(w, v, n).(insurance := ReceiveData(sha, w.insurance, RENAULT, v, n, data).0)
  }

  function Apply(sha: Hasher, w: World, a: Action): World {
    match a
    case NewFactory(origin, f) => w.(renault := CreateFactory(w.renault, origin, f).0)
    case NewVehicle(origin, v) => w.(renault := CreateVehicle(w.renault, origin, v).0)
    case StartVehicle(origin, v) => w.(renault := InitVehicle(w.renault, origin, v).0)
    case VehicleReports(origin, data) => Report(sha, w, origin, data)
    case IpfsChecked(origin, data, verdict) => w.(renault := SetIpfsStatus(w.renault, origin, data, verdict).0)
    case DriverSubscribes(origin) => w.(insurance := SignUp(w.insurance, origin).0)
    case DriverDeclares(origin, v, n, sent, rolledBack) => DeclareAccident(sha, w, origin, v, n, sent, rolledBack)
    case RequestArrives(v, n, sent) => HandleRequest(sha, w, v, n, sent)
    case ResponseArrives(v, n, data) => HandleResponse(sha, w, v, n, data)
  }

  function Run(sha: Hasher, start: World, acts: seq<Action>): World {
    if acts == [] then start else Apply(sha, Run(sha, start, acts[..|acts| - 1]), acts[|acts| - 1])
  }

  // ---- What vehicles reported ----

  /** The data vehicle `v` has reported, in order. */
  function Reports(events: seq<AccidentStored>, v: AccountId): seq<DataHash> {
    if events == [] then []
    else
      var last := events[|events| - 1];
      Reports(events[..|events| - 1], v) + if last.vehicle == v then [last.data] else []
  }

  lemma ReportsOneMore(events: seq<AccidentStored>, e: AccidentStored, v: AccountId)
    ensures Reports(events + [e], v) == Reports(events, v) + if e.vehicle == v then [e.data] else []
  {
  }

  /** Registered vehicles belong to known factories, and only registered ones are initialised. */
  ghost predicate Registered(st: State) {
    && (forall v | v in st.status && st.status[v] :: v in st.vehicles)
    && (forall v | v in st.vehicles :: st.vehicles[v] in st.factories)
  }

  /** Whoever has reported is an initialised vehicle. */
  ghost predicate ReportersInitialised(st: State) {
    forall v | Reports(st.events, v) != [] :: IsVehicle(st, v)
  }

  /** The reports of `v` are stored, in order, under `v`'s keys numbered from zero. */
  ghost predicate Indexed(sha: Hasher, w: World, v: AccountId) {
    var reps := Reports(w.renault.events, v);
    && |reps| <= WRAP
    && Count(w.renault, v) == |reps| % WRAP
    && (forall i | 0 <= i < |reps| ::
          && (v, i) in w.hashed
          && Key(sha, v, i) in w.renault.accidents
          && w.renault.accidents[Key(sha, v, i)] == reps[i])
  }

  /** Nothing else is stored. */
  ghost predicate OnlyReports(sha: Hasher, w: World) {
    forall k | k in w.renault.accidents ::
      exists v, i: nat :: i < |Reports(w.renault.events, v)| && i < WRAP && k == Key(sha, v, i)
  }

  ghost predicate Dense(sha: Hasher, w: World) {
    && (forall v :: Indexed(sha, w, v))
    && OnlyReports(sha, w)
    && ReportersInitialised(w.renault)
  }

  lemma AllIndexed(sha: Hasher, w: World, v: AccountId)
    requires Dense(sha, w)
    ensures Indexed(sha, w, v)
  {
  }

  /** Whose key `k` is. */
  lemma Owner(sha: Hasher, w: World, k: seq<byte>) returns (v: AccountId, i: u32)
    requires Dense(sha, w) && k in w.renault.accidents
    ensures i < |Reports(w.renault.events, v)| && k == Key(sha, v, i) && (v, i) in w.hashed
    ensures w.renault.accidents[k] == Reports(w.renault.events, v)[i]
  {
    hide Key, Reports;
    var v', i': nat :| i' < |Reports(w.renault.events, v')| && i' < WRAP && k == Key(sha, v', i');
    assert Indexed(sha, w, v');
    v, i := v', i';
  }

  /** A key is stored exactly for the numbers of the reports made. */
  lemma StoredExactly(sha: Hasher, w: World, v: AccountId, n: u32)
    requires Dense(sha, w) && NoCollision(sha, w.hashed + {(v, n)})
    ensures Key(sha, v, n) in w.renault.accidents <==> n < |Reports(w.renault.events, v)|
    ensures n < |Reports(w.renault.events, v)| ==>
              w.renault.accidents[Key(sha, v, n)] == Reports(w.renault.events, v)[n]
  {
    hide Key, Reports, NoCollision;
    assert Indexed(sha, w, v);
    if Key(sha, v, n) in w.renault.accidents {
      var v', i := Owner(sha, w, Key(sha, v, n));
      SameKeySameOwner(sha, w.hashed + {(v, n)}, (v, n), (v', i));
    }
  }

  /** `AccidentAlreadyStored` is returned exactly to a vehicle with 2^32 reports. */
  lemma AlreadyStoredExactly(sha: Hasher, w: World, v: AccountId, data: DataHash)
    requires Dense(sha, w) && NoCollision(sha, w.hashed + {(v, Count(w.renault, v))})
    ensures ReportAccident(sha, w.renault, Signed(v), data).1 == Err(AccidentAlreadyStored)
            <==> IsVehicle(w.renault, v) && |Reports(w.renault.events, v)| == WRAP
  {
    hide Key, Reports, NoCollision, Dense;
    assert Indexed(sha, w, v) by {
      AllIndexed(sha, w, v);
    }
    var n, c := |Reports(w.renault.events, v)|, Count(w.renault, v);
    assert if n == WRAP then c == 0 else c == n;
    StoredExactly(sha, w, v, c);
  }

  /** Asking for the `n`-th accident returns the `n`-th report, or says why not. */
  lemma DataIsReport(sha: Hasher, w: World, v: AccountId, n: u32)
    requires Dense(sha, w) && (n > 0 ==> NoCollision(sha, w.hashed + {(v, n - 1)}))
    ensures GetAccidentData(sha, w.renault, v, n) ==
            if n == 0 then Err(GetVehicleAccidentDataBadCount)
            else if n <= |Reports(w.renault.events, v)| then Ok(Reports(w.renault.events, v)[n - 1])
            else Err(GetVehicleAccidentDataNotExist)
  {
    hide Key, Reports, NoCollision;
    if n > 0 {
      StoredExactly(sha, w, v, n - 1);
    }
  }

  // ---- Every action keeps the index dense ----

  lemma DenseFrame(sha: Hasher, w: World, w': World)
    requires Dense(sha, w) && w.hashed <= w'.hashed
    requires w'.renault.events == w.renault.events && w'.renault.accidents == w.renault.accidents
    requires w'.renault.counts == w.renault.counts
    requires forall v | IsVehicle(w.renault, v) :: IsVehicle(w'.renault, v)
    ensures Dense(sha, w')
  {
    hide Key, Reports;
    forall v ensures Indexed(sha, w', v) {
      assert Indexed(sha, w, v);
    }
  }

  lemma IndexedGrows(sha: Hasher, w: World, w': World, v: AccountId, data: DataHash, u: AccountId)
    requires Indexed(sha, w, u) && Indexed(sha, w, v) && |Reports(w.renault.events, v)| < WRAP
    requires var c := Count(w.renault, v);
      && Key(sha, v, c) !in w.renault.accidents
      && w'.hashed == w.hashed + {(v, c)}
      && w'.renault.accidents == w.renault.accidents[Key(sha, v, c) := data]
      && w'.renault.counts == w.renault.counts[v := Increment(c)]
      && w'.renault.events == w.renault.events + [AccidentStored(v, c, data)]
    ensures Indexed(sha, w', u)
  {
    hide Key, Reports;
    ReportsOneMore(w.renault.events, AccidentStored(v, Count(w.renault, v), data), u);
  }

  lemma ReportKeepsDense(sha: Hasher, w: World, origin: Origin, data: DataHash)
    requires Dense(sha, w) && NoCollision(sha, Report(sha, w, origin, data).hashed)
    ensures Dense(sha, Report(sha, w, origin, data))
  {
    hide Key, Reports, NoCollision;
    var w' := Report(sha, w, origin, data);
    if origin.Signed? && IsVehicle(w.renault, origin.who) {
      var v := origin.who;
      var c := Count(w.renault, v);
      AlreadyStoredExactly(sha, w, v, data);
      assert Indexed(sha, w, v);
      if |Reports(w.renault.events, v)| == WRAP {
        DenseFrame(sha, w, w');
      } else {
        var e := AccidentStored(v, c, data);
        forall u ensures Indexed(sha, w', u) {
          assert Indexed(sha, w, u);
          IndexedGrows(sha, w, w', v, data, u);
        }
        OnlyReportsGrows(sha, w, w', v, data);
        forall u | Reports(w'.renault.events, u) != [] ensures IsVehicle(w'.renault, u) {
          ReportsOneMore(w.renault.events, e, u);
        }
      }
    }
  }

  lemma OnlyReportsGrows(sha: Hasher, w: World, w': World, v: AccountId, data: DataHash)
    requires Dense(sha, w) && |Reports(w.renault.events, v)| < WRAP
    requires var c := Count(w.renault, v);
      && w'.renault.accidents == w.renault.accidents[Key(sha, v, c) := data]
      && w'.renault.events == w.renault.events + [AccidentStored(v, c, data)]
    ensures OnlyReports(sha, w')
  {
    hide Key, Reports;
    var c := Count(w.renault, v);
    var e := AccidentStored(v, c, data);
    forall k | k in w'.renault.accidents
      ensures exists u, i: nat :: i < |Reports(w'.renault.events, u)| && i < WRAP && k == Key(sha, u, i)
    {
      if k == Key(sha, v, c) {
        assert Indexed(sha, w, v);
        ReportsOneMore(w.renault.events, e, v);
        assert (c as nat) < |Reports(w'.renault.events, v)|;
      } else {
        var u, i := Owner(sha, w, k);
        ReportsOneMore(w.renault.events, e, u);
        assert (i as nat) < |Reports(w'.renault.events, u)|;
      }
    }
  }

  lemma StepKeepsRegistered(sha: Hasher, w: World, a: Action)
    requires Registered(w.renault)
    ensures Registered(Apply(sha, w, a).renault)
  {
  }

  lemma HashedGrows(sha: Hasher, w: World, a: Action)
    ensures w.hashed <= Apply(sha, w, a).hashed
  {
  }

  lemma StepKeepsDense(sha: Hasher, w: World, a: Action)
    requires Dense(sha, w) && NoCollision(sha, Apply(sha, w, a).hashed)
    ensures Dense(sha, Apply(sha, w, a))
  {
    hide Key, Reports, NoCollision, Dense, Report;
    HashedGrows(sha, w, a);
    if a.VehicleReports? {
      ReportKeepsDense(sha, w, a.origin, a.data);
    } else {
      DenseFrame(sha, w, Apply(sha, w, a));
    }
  }

  lemma FewerNoCollision(sha: Hasher, some: set<(AccountId, u32)>, all: set<(AccountId, u32)>)
    requires some <= all && NoCollision(sha, all)
    ensures NoCollision(sha, some)
  {
  }

  lemma BeginDense(sha: Hasher, factory: Option<AccountId>, driver: Option<AccountId>)
    ensures Dense(sha, Begin(factory, driver)) && Registered(Begin(factory, driver).renault)
  {
  }

  /** Below collisions, the manufacturer's index is dense in every run. */
  lemma {:induction false} RunDense(sha: Hasher, factory: Option<AccountId>,
                                    driver: Option<AccountId>, acts: seq<Action>)
    requires NoCollision(sha, Run(sha, Begin(factory, driver), acts).hashed)
    ensures Dense(sha, Run(sha, Begin(factory, driver), acts))
  {
    hide Apply, Dense, NoCollision, Begin;
    if acts == [] {
      BeginDense(sha, factory, driver);
    } else {
      var w, a := Run(sha, Begin(factory, driver), acts[..|acts| - 1]), acts[|acts| - 1];
      HashedGrows(sha, w, a);
      FewerNoCollision(sha, w.hashed, Apply(sha, w, a).hashed);
      RunDense(sha, factory, driver, acts[..|acts| - 1]);
      StepKeepsDense(sha, w, a);
    }
  }

  lemma {:induction false} RunRegistered(sha: Hasher, factory: Option<AccountId>,
                                         driver: Option<AccountId>, acts: seq<Action>)
    ensures Registered(Run(sha, Begin(factory, driver), acts).renault)
  {
    hide Apply, Registered, Begin;
    if acts == [] {
      BeginDense(sha, factory, driver);
    } else {
      RunRegistered(sha, factory, driver, acts[..|acts| - 1]);
      StepKeepsRegistered(sha, Run(sha, Begin(factory, driver), acts[..|acts| - 1]), acts[|acts| - 1]);
    }
  }

  lemma ReportKeepsReporters(sha: Hasher, w: World, origin: Origin, data: DataHash)
    requires ReportersInitialised(w.renault)
    ensures ReportersInitialised(Report(sha, w, origin, data).renault)
  {
    hide Key, Reports;
    var w' := Report(sha, w, origin, data);
    forall v | Reports(w'.renault.events, v) != [] ensures IsVehicle(w'.renault, v) {
      if w'.renault.events != w.renault.events {
        ReportsOneMore(w.renault.events, AccidentStored(origin.who, Count(w.renault, origin.who), data), v);
      }
    }
  }

  lemma StepKeepsReporters(sha: Hasher, w: World, a: Action)
    requires ReportersInitialised(w.renault)
    ensures ReportersInitialised(Apply(sha, w, a).renault)
  {
    hide Key, Reports, Report;
    if a.VehicleReports? {
      ReportKeepsReporters(sha, w, a.origin, a.data);
    }
  }

  lemma {:induction false} RunReporters(sha: Hasher, factory: Option<AccountId>, driver: Option<AccountId>,
                                        acts: seq<Action>)
    ensures ReportersInitialised(Run(sha, Begin(factory, driver), acts).renault)
  {
    hide Apply;
    if acts != [] {
      RunReporters(sha, factory, driver, acts[..|acts| - 1]);
      StepKeepsReporters(sha, Run(sha, Begin(factory, driver), acts[..|acts| - 1]), acts[|acts| - 1]);
    }
  }

  /** Whoever has reported is an initialised, registered vehicle of a known factory, for any hash. */
  lemma {:induction false} ReporterIsRegistered(sha: Hasher, factory: Option<AccountId>, driver: Option<AccountId>,
                                                acts: seq<Action>, v: AccountId)
    requires Reports(Run(sha, Begin(factory, driver), acts).renault.events, v) != []
    ensures var st := Run(sha, Begin(factory, driver), acts).renault;
      IsVehicle(st, v) && v in st.vehicles && st.vehicles[v] in st.factories
  {
    hide Run, Reports;
    RunReporters(sha, factory, driver, acts);
    RunRegistered(sha, factory, driver, acts);
  }

  /**
   In every run, accident `n` of `v` is found exactly when `v` has reported at least `n`
   accidents, and then it is `v`'s `n`-th report; there never are more than 2^32.
   */
  lemma {:induction false} ReportsRetrievable(sha: Hasher, factory: Option<AccountId>,
                                              driver: Option<AccountId>, acts: seq<Action>,
                                              v: AccountId, n: u32)
    requires NoCollision(sha, Run(sha, Begin(factory, driver), acts).hashed + {(v, if n == 0 then 0 else n - 1)})
    ensures var st := Run(sha, Begin(factory, driver), acts).renault; var reps := Reports(st.events, v);
      && |reps| <= WRAP
      && GetAccidentData(sha, st, v, n) ==
           if n == 0 then Err(GetVehicleAccidentDataBadCount)
           else if n <= |reps| then Ok(reps[n - 1])
           else Err(GetVehicleAccidentDataNotExist)
  {
    hide Run, NoCollision, Reports, Dense, GetAccidentData;
    var w := Run(sha, Begin(factory, driver), acts);
    FewerNoCollision(sha, w.hashed, w.hashed + {(v, if n == 0 then 0 else n - 1)});
    RunDense(sha, factory, driver, acts);
    AllIndexed(sha, w, v);
    DataIsReport(sha, w, v, n);
  }

  /** In every run, a vehicle's report is refused as already stored exactly after 2^32 reports. */
  lemma {:induction false} ReportRefusedExactly(sha: Hasher, factory: Option<AccountId>,
                                                driver: Option<AccountId>, acts: seq<Action>,
                                                v: AccountId, data: DataHash)
    requires var w := Run(sha, Begin(factory, driver), acts); NoCollision(sha, w.hashed + {(v, Count(w.renault, v))})
    ensures var st := Run(sha, Begin(factory, driver), acts).renault;
      ReportAccident(sha, st, Signed(v), data).1 == Err(AccidentAlreadyStored)
      <==> IsVehicle(st, v) && |Reports(st.events, v)| == WRAP
  {
    hide Run, NoCollision, Reports, Dense, ReportAccident;
    var w := Run(sha, Begin(factory, driver), acts);
    FewerNoCollision(sha, w.hashed, w.hashed + {(v, Count(w.renault, v))});
    RunDense(sha, factory, driver, acts);
    AlreadyStoredExactly(sha, w, v, data);
  }
}

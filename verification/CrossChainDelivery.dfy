/**
 What was reported comes through. The reports of a vehicle, the status of its data and
 the answers to requests are said from the actions of a run alone; a reply that is
 delivered is stored, and a declaration whose messages arrive ends with the data declared.
 */
module CrossChainDelivery {
  import opened Bytes
  import opened CompositeKeys
  import opened Options
  import opened Renault
  import opened Insurance
  import opened CrossChain
  import opened CrossChainAgreement
  import opened Registry

  // ---- Reports ----

  /** The data `v` has reported in a run, in order, from the actions and nothing else. */
  ghost function Reported(init: Option<AccountId>, acts: seq<Action>, v: AccountId): seq<DataHash> {
    if acts == [] then []
    else
      var before, a := acts[..|acts| - 1], acts[|acts| - 1];
      Reported(init, before, v) +
      if a.VehicleReports? && a.origin == Signed(v) && Initialised(init, before, v)
         && |Reported(init, before, v)| < WRAP
      then [a.data] else []
  }

  /** `a` is a report of `v` that is taken: `v` is initialised and has made fewer than 2^32. */
  ghost predicate Takes(init: Option<AccountId>, before: seq<Action>, a: Action, v: AccountId) {
    a.VehicleReports? && a.origin == Signed(v) && Initialised(init, before, v) && |Reported(init, before, v)| < WRAP
  }

  lemma ReportedLast(init: Option<AccountId>, acts: seq<Action>, a: Action, v: AccountId)
    ensures Reported(init, acts + [a], v) == Reported(init, acts, v) + if Takes(init, acts, a, v) then [a.data] else []
  {
    hide Initialised;
    assert (acts + [a])[..|acts|] == acts;
  }

  lemma ReportRecords(sha: Hasher, w: World, origin: Origin, data: DataHash, v: AccountId)
    requires Dense(sha, w) && NoCollision(sha, Report(sha, w, origin, data).hashed)
    ensures Reports(Report(sha, w, origin, data).renault.events, v) ==
            Reports(w.renault.events, v)
            + if origin == Signed(v) && IsVehicle(w.renault, v) && |Reports(w.renault.events, v)| < WRAP
              then [data] else []
  {
    hide Key, Reports, NoCollision, Dense;
    if origin.Signed? && IsVehicle(w.renault, origin.who) {
      var u := origin.who;
      AlreadyStoredExactly(sha, w, u, data);
      BoundedReports(sha, w, u);
      ReportsOneMore(w.renault.events, AccidentStored(u, Count(w.renault, u), data), v);
    }
  }

  lemma BoundedReports(sha: Hasher, w: World, v: AccountId)
    requires Dense(sha, w)
    ensures |Reports(w.renault.events, v)| <= WRAP
  {
    hide Key, Reports;
    assert Indexed(sha, w, v);
  }

  lemma OthersRecordNothing(sha: Hasher, w: World, a: Action)
    requires !a.VehicleReports?
    ensures Apply(sha, w, a).renault.events == w.renault.events
  {
    hide Key;
  }

  /** In every run without collisions, what is recorded for `v` is what `v` reported. */
  lemma {:induction false} RecordsAreReports(sha: Hasher, init: Option<AccountId>, driver: Option<AccountId>,
                                             acts: seq<Action>, v: AccountId)
    requires NoCollision(sha, Run(sha, Begin(init, driver), acts).hashed)
    ensures Reports(Run(sha, Begin(init, driver), acts).renault.events, v) == Reported(init, acts, v)
  {
    hide Apply, Report, NoCollision, Dense, Reports, Reported, Initialised, RegistryMatches, Begin;
    if acts == [] {
      NothingReported(sha, init, driver, v);
    } else {
      var before, a := acts[..|acts| - 1], acts[|acts| - 1];
      assert acts == before + [a];
      var w := Run(sha, Begin(init, driver), before);
      HashedGrows(sha, w, a);
      FewerNoCollision(sha, w.hashed, Apply(sha, w, a).hashed);
      RecordsAreReports(sha, init, driver, before, v);
      ReportedLast(init, before, a, v);
      if a.VehicleReports? {
        RunDense(sha, init, driver, before);
        InitialisedIsVehicle(sha, init, driver, before, v);
        ReportApplies(sha, w, a);
        ReportRecords(sha, w, a.origin, a.data, v);
      } else {
        OthersRecordNothing(sha, w, a);
      }
    }
  }

  lemma NothingReported(sha: Hasher, init: Option<AccountId>, driver: Option<AccountId>, v: AccountId)
    ensures Reports(Run(sha, Begin(init, driver), []).renault.events, v) == Reported(init, [], v) == []
  {
  }

  lemma ReportApplies(sha: Hasher, w: World, a: Action)
    requires a.VehicleReports?
    ensures Apply(sha, w, a) == Report(sha, w, a.origin, a.data)
  {
  }

  lemma InitialisedIsVehicle(sha: Hasher, init: Option<AccountId>, driver: Option<AccountId>, acts: seq<Action>,
                             v: AccountId)
    ensures IsVehicle(Run(sha, Begin(init, driver), acts).renault, v) <==> Initialised(init, acts, v)
  {
    hide Run, Initialised, OwnerOf;
    RegistryFromActions(sha, init, driver, acts);
  }

  /** Each record carries its position among the vehicle's records, and the counter the next one. */
  ghost predicate Positions(st: State) {
    && (forall v :: Count(st, v) == |Reports(st.events, v)| % WRAP)
    && (forall i | 0 <= i < |st.events| ::
          st.events[i].number == |Reports(st.events[..i], st.events[i].vehicle)| % WRAP)
  }

  lemma ReportKeepsPositions(sha: Hasher, w: World, origin: Origin, data: DataHash)
    requires Positions(w.renault)
    ensures Positions(Report(sha, w, origin, data).renault)
  {
    hide Key, Reports;
    var st, st' := w.renault, Report(sha, w, origin, data).renault;
    if st'.events != st.events {
      var u, n := origin.who, |Reports(st.events, origin.who)|;
      var e := AccidentStored(u, Count(st, u), data);
      assert st'.events == st.events + [e];
      assert Increment(n % WRAP) == (n + 1) % WRAP;
      forall v ensures Count(st', v) == |Reports(st'.events, v)| % WRAP {
        ReportsOneMore(st.events, e, v);
        assert Count(st, v) == |Reports(st.events, v)| % WRAP;
      }
      forall i | 0 <= i < |st'.events|
        ensures st'.events[i].number == |Reports(st'.events[..i], st'.events[i].vehicle)| % WRAP
      {
        if i < |st.events| {
          assert st'.events[..i] == st.events[..i] && st'.events[i] == st.events[i];
        } else {
          assert st'.events[..i] == st.events;
        }
      }
    }
  }

  lemma OthersCountNothing(sha: Hasher, w: World, a: Action)
    requires !a.VehicleReports?
    ensures Apply(sha, w, a).renault.counts == w.renault.counts
  {
    hide Key;
  }

  lemma PositionsFrame(st: State, st': State)
    requires Positions(st) && st'.counts == st.counts && st'.events == st.events
    ensures Positions(st')
  {
    hide Reports;
    assert forall v :: Count(st', v) == Count(st, v);
  }

  /** In every run, for any hash, records are numbered in order. */
  lemma {:induction false} RecordsNumbered(sha: Hasher, init: Option<AccountId>, driver: Option<AccountId>,
                                           acts: seq<Action>)
    ensures Positions(Run(sha, Begin(init, driver), acts).renault)
  {
    hide Apply, Report;
    if acts != [] {
      var before, a := acts[..|acts| - 1], acts[|acts| - 1];
      RecordsNumbered(sha, init, driver, before);
      var w := Run(sha, Begin(init, driver), before);
      hide Positions, Begin;
      if a.VehicleReports? {
        ReportApplies(sha, w, a);
        ReportKeepsPositions(sha, w, a.origin, a.data);
      } else {
        OthersRecordNothing(sha, w, a);
        OthersCountNothing(sha, w, a);
        PositionsFrame(w.renault, Apply(sha, w, a).renault);
      }
    }
  }

  /** How a report is answered in a run without collisions. */
  lemma {:induction false} ReportAnswered(sha: Hasher, init: Option<AccountId>, driver: Option<AccountId>,
                                          acts: seq<Action>, v: AccountId, data: DataHash)
    requires var w := Run(sha, Begin(init, driver), acts); NoCollision(sha, w.hashed + {(v, Count(w.renault, v))})
    ensures ReportAccident(sha, Run(sha, Begin(init, driver), acts).renault, Signed(v), data).1 ==
            if !Initialised(init, acts, v) then Err(UnknownVehicle)
            else if |Reported(init, acts, v)| == WRAP then Err(AccidentAlreadyStored)
            else Ok(())
  {
    hide Run, NoCollision, Key, Reports, Reported, Initialised;
    var w := Run(sha, Begin(init, driver), acts);
    FewerNoCollision(sha, w.hashed, w.hashed + {(v, Count(w.renault, v))});
    RecordsAreReports(sha, init, driver, acts, v);
    InitialisedIsVehicle(sha, init, driver, acts, v);
    ReportRefusedExactly(sha, init, driver, acts, v, data);
  }

  /** Asking for accident `n` of `v` returns the data of its `n`-th report. */
  lemma {:induction false} FetchReturnsReport(sha: Hasher, init: Option<AccountId>, driver: Option<AccountId>,
                                              acts: seq<Action>, v: AccountId, n: u32)
    requires NoCollision(sha, Run(sha, Begin(init, driver), acts).hashed + {(v, if n == 0 then 0 else n - 1)})
    ensures GetAccidentData(sha, Run(sha, Begin(init, driver), acts).renault, v, n) ==
            if n == 0 then Err(GetVehicleAccidentDataBadCount)
            else if n <= |Reported(init, acts, v)| then Ok(Reported(init, acts, v)[n - 1])
            else Err(GetVehicleAccidentDataNotExist)
  {
    hide Run, NoCollision, Key, Reports, Reported, GetAccidentData;
    var w := Run(sha, Begin(init, driver), acts);
    FewerNoCollision(sha, w.hashed, w.hashed + {(v, if n == 0 then 0 else n - 1)});
    RecordsAreReports(sha, init, driver, acts, v);
    ReportsRetrievable(sha, init, driver, acts, v, n);
  }

  /** What a vehicle has just reported is found under the next number. */
  lemma {:induction false} ReportThenFetch(sha: Hasher, init: Option<AccountId>, driver: Option<AccountId>,
                                           acts: seq<Action>, v: AccountId, data: DataHash)
    requires Initialised(init, acts, v) && |Reported(init, acts, v)| + 1 < WRAP
    requires var w := Run(sha, Begin(init, driver), acts + [VehicleReports(Signed(v), data)]);
      NoCollision(sha, w.hashed + {(v, |Reported(init, acts, v)|)})
    ensures var w := Run(sha, Begin(init, driver), acts + [VehicleReports(Signed(v), data)]);
      GetAccidentData(sha, w.renault, v, |Reported(init, acts, v)| + 1) == Ok(data)
  {
    hide Run, NoCollision, Reported, Initialised, GetAccidentData;
    var a := VehicleReports(Signed(v), data);
    ReportedLast(init, acts, a, v);
    FetchReturnsReport(sha, init, driver, acts + [a], v, |Reported(init, acts, v)| + 1);
  }

  // ---- The status of reported data ----

  /** `x` is unchecked when reported, and then has the latest verdict a signed account gave. */
  ghost function StatusOf(init: Option<AccountId>, acts: seq<Action>, x: DataHash): Option<nat> {
    if acts == [] then None
    else
      var before, a := acts[..|acts| - 1], acts[|acts| - 1];
      var status := StatusOf(init, before, x);
      if a.VehicleReports? && a.data == x && a.origin.Signed? && Takes(init, before, a, a.origin.who) then Some(0)
      else if a.IpfsChecked? && a.data == x && a.origin.Signed? && status.Some? then Some(a.verdict)
      else status
  }

  function RecordedStatus(st: State, x: DataHash): Option<nat> {
    if x in st.ipfs then Some(st.ipfs[x]) else None
  }

  lemma StatusLast(init: Option<AccountId>, acts: seq<Action>, a: Action, x: DataHash)
    ensures StatusOf(init, acts + [a], x) ==
            if a.VehicleReports? && a.data == x && a.origin.Signed? && Takes(init, acts, a, a.origin.who) then Some(0)
            else if a.IpfsChecked? && a.data == x && a.origin.Signed? && StatusOf(init, acts, x).Some?
            then Some(a.verdict)
            else StatusOf(init, acts, x)
  {
    hide Takes;
    assert (acts + [a])[..|acts|] == acts;
  }

  lemma ReportStatus(sha: Hasher, w: World, origin: Origin, data: DataHash, x: DataHash)
    ensures RecordedStatus(Report(sha, w, origin, data).renault, x) ==
            if data == x && ReportAccident(sha, w.renault, origin, data).1.Ok? then Some(0)
            else RecordedStatus(w.renault, x)
  {
    hide Key;
  }

  lemma OtherStatus(sha: Hasher, w: World, a: Action, x: DataHash)
    requires !a.VehicleReports?
    ensures RecordedStatus(Apply(sha, w, a).renault, x) ==
            if a.IpfsChecked? && a.data == x && a.origin.Signed? && RecordedStatus(w.renault, x).Some?
            then Some(a.verdict) else RecordedStatus(w.renault, x)
  {
    hide Key;
  }

  lemma {:induction false} TakenIsOk(sha: Hasher, init: Option<AccountId>, driver: Option<AccountId>,
                                     acts: seq<Action>, a: Action)
    requires a.VehicleReports? && NoCollision(sha, Run(sha, Begin(init, driver), acts + [a]).hashed)
    ensures ReportAccident(sha, Run(sha, Begin(init, driver), acts).renault, a.origin, a.data).1.Ok? <==>
            a.origin.Signed? && Takes(init, acts, a, a.origin.who)
  {
    hide NoCollision, Key, Reports, Reported, Initialised, Begin;
    assert (acts + [a])[..|acts|] == acts;
    var w := Run(sha, Begin(init, driver), acts);
    if a.origin.Signed? {
      var v := a.origin.who;
      InitialisedIsVehicle(sha, init, driver, acts, v);
      if IsVehicle(w.renault, v) {
        assert Apply(sha, w, a).hashed == w.hashed + {(v, Count(w.renault, v))};
        FewerNoCollision(sha, w.hashed, w.hashed + {(v, Count(w.renault, v))});
        RunDense(sha, init, driver, acts);
        BoundedReports(sha, w, v);
        RecordsAreReports(sha, init, driver, acts, v);
        ReportAnswered(sha, init, driver, acts, v, a.data);
      }
    }
  }

  /** In every run without collisions the recorded status is the one the actions give. */
  lemma {:induction false} StatusFromActions(sha: Hasher, init: Option<AccountId>, driver: Option<AccountId>,
                                             acts: seq<Action>, x: DataHash)
    requires NoCollision(sha, Run(sha, Begin(init, driver), acts).hashed)
    ensures RecordedStatus(Run(sha, Begin(init, driver), acts).renault, x) == StatusOf(init, acts, x)
  {
    hide Apply, Report, ReportAccident, NoCollision, Takes, RecordedStatus, Begin;
    if acts == [] {
      NoStatus(init, driver, x);
    } else {
      var before, a := acts[..|acts| - 1], acts[|acts| - 1];
      assert acts == before + [a];
      var w := Run(sha, Begin(init, driver), before);
      HashedGrows(sha, w, a);
      FewerNoCollision(sha, w.hashed, Apply(sha, w, a).hashed);
      StatusFromActions(sha, init, driver, before, x);
      StatusLast(init, before, a, x);
      if a.VehicleReports? {
        ReportApplies(sha, w, a);
        ReportStatus(sha, w, a.origin, a.data, x);
        TakenIsOk(sha, init, driver, before, a);
      } else {
        OtherStatus(sha, w, a, x);
      }
    }
  }

  lemma NoStatus(init: Option<AccountId>, driver: Option<AccountId>, x: DataHash)
    ensures RecordedStatus(Begin(init, driver).renault, x) == None
  {
  }

  /** A verdict is taken exactly on data that was reported. */
  lemma {:induction false} VerdictAnswered(sha: Hasher, init: Option<AccountId>, driver: Option<AccountId>,
                                           acts: seq<Action>, who: AccountId, x: DataHash, verdict: nat)
    requires NoCollision(sha, Run(sha, Begin(init, driver), acts).hashed)
    ensures SetIpfsStatus(Run(sha, Begin(init, driver), acts).renault, Signed(who), x, verdict).1 ==
            if StatusOf(init, acts, x).Some? then Ok(()) else Err(IpfsStatusError)
  {
    hide Run, NoCollision, StatusOf;
    StatusFromActions(sha, init, driver, acts, x);
  }

  // ---- Requests and replies ----

  /** How the manufacturer answers a sibling chain in a run without collisions. */
  lemma {:induction false} RequestAnswered(sha: Hasher, init: Option<AccountId>, driver: Option<AccountId>,
                                           acts: seq<Action>, para: nat, v: AccountId, n: u32, sent: bool)
    requires NoCollision(sha, Run(sha, Begin(init, driver), acts).hashed + {(v, if n == 0 then 0 else n - 1)})
    ensures RequestData(sha, Run(sha, Begin(init, driver), acts).renault, Sibling(para), v, n, sent) ==
            if !Initialised(init, acts, v) then Err(VehicleStatusError)
            else if n == 0 || n > |Reported(init, acts, v)| then Err(CannotFindData)
            else if !sent then Err(SendXcmError)
            else Ok(Reported(init, acts, v)[n - 1])
  {
    hide Run, NoCollision, Reported, Initialised, GetAccidentData;
    InitialisedIsVehicle(sha, init, driver, acts, v);
    FetchReturnsReport(sha, init, driver, acts, v, n);
  }

  /** A request that arrives is replied to exactly if the accident was reported and the reply can be sent. */
  lemma {:induction false} RequestHandled(sha: Hasher, init: Option<AccountId>, driver: Option<AccountId>,
                                          acts: seq<Action>, v: AccountId, n: u32, sent: bool)
    requires Request(v, n) in Run(sha, Begin(init, driver), acts).network
    requires NoCollision(sha, Run(sha, Begin(init, driver), acts).hashed + {(v, if n == 0 then 0 else n - 1)})
    ensures var w, w' := Run(sha, Begin(init, driver), acts),
                         Run(sha, Begin(init, driver), acts + [RequestArrives(v, n, sent)]);
      && w'.renault == w.renault && w'.insurance == w.insurance
      && w'.network == w.network +
         (if sent && Initialised(init, acts, v) && 1 <= n <= |Reported(init, acts, v)|
          then {Response(v, n, Reported(init, acts, v)[n - 1])} else {})
  {
    hide NoCollision, Reported, Initialised, RequestData, Begin;
    assert (acts + [RequestArrives(v, n, sent)])[..|acts|] == acts;
    RequestAnswered(sha, init, driver, acts, 3000, v, n, sent);
  }

  /** A declaration that is taken is recorded and asks for the data declared. */
  lemma {:induction false} DeclarationHandled(sha: Hasher, factory: Option<AccountId>, init: Option<AccountId>,
                                              acts: seq<Action>, d: AccountId, v: AccountId, n: u32,
                                              sent: bool, rolledBack: bool)
    ensures var w := Run(sha, Begin(factory, init), acts);
      var w' := Run(sha, Begin(factory, init), acts + [DriverDeclares(Signed(d), v, n, sent, rolledBack)]);
      var number := NextNumber(w.insurance, d);
      var free := Subscribed(init, acts, d) && Key(sha, d, number) !in w.insurance.declared;
      && Declare(sha, w.insurance, Signed(d), v, n, sent, rolledBack).1 ==
         (if !Subscribed(init, acts, d) then Refused(UnknownDriver)
          else if !free then Refused(DeclarationAlreadyStored)
          else if sent then Done else Refused(ErrorRequestData))
      && w'.renault == w.renault && w'.insurance.data == w.insurance.data
      && w'.network == w.network + (if free && sent then {Request(v, n)} else {})
      && (if free && (sent || !rolledBack) then
            && w'.insurance.declared == w.insurance.declared[Key(sha, d, number) := (v, n)]
            && w'.insurance.log == w.insurance.log + [Declared(d, number, v, n)]
            && NextNumber(w'.insurance, v) == Increment(number)
          else w'.insurance == w.insurance)
  {
    hide Key, Begin;
    assert (acts + [DriverDeclares(Signed(d), v, n, sent, rolledBack)])[..|acts|] == acts;
    SubscribersFromActions(sha, factory, init, acts, d);
  }

  lemma DeliveryStores(sha: Hasher, w: World, v: AccountId, n: u32, x: DataHash)
    requires Response(v, n, x) in w.network
    ensures var w' := HandleResponse(sha, w, v, n, x); var key := Key(sha, v, n);
      && ReceiveData(sha, w.insurance, RENAULT, v, n, x).1 ==
         (if key in w.insurance.data then Refused(AccidentDataAlreadyStored) else Done)
      && w'.insurance.data == (if key in w.insurance.data then w.insurance.data else w.insurance.data[key := x])
      && w'.insurance.log == w.insurance.log + (if key in w.insurance.data then [] else [DataStored(v, n, x)])
      && (v, n) in w'.hashed
  {
    hide Key;
  }

  lemma DeliveryRuns(sha: Hasher, start: World, acts: seq<Action>, v: AccountId, n: u32, x: DataHash)
    ensures Run(sha, start, acts + [ResponseArrives(v, n, x)]) == HandleResponse(sha, Run(sha, start, acts), v, n, x)
  {
    hide HandleResponse;
    assert (acts + [ResponseArrives(v, n, x)])[..|acts|] == acts;
  }

  /** Delivering a reply in flight for a key the insurer does not hold stores exactly its data. */
  lemma {:induction false} ReplyStored(sha: Hasher, init: Option<AccountId>, driver: Option<AccountId>,
                                       acts: seq<Action>, v: AccountId, n: u32, x: DataHash)
    requires Response(v, n, x) in Run(sha, Begin(init, driver), acts).network
    requires Key(sha, v, n) !in Run(sha, Begin(init, driver), acts).insurance.data
    ensures var w, w' := Run(sha, Begin(init, driver), acts),
                         Run(sha, Begin(init, driver), acts + [ResponseArrives(v, n, x)]);
      && ReceiveData(sha, w.insurance, RENAULT, v, n, x).1 == Done
      && w'.insurance.data == w.insurance.data[Key(sha, v, n) := x]
      && w'.insurance.log == w.insurance.log + [DataStored(v, n, x)]
  {
    hide Run, Key, HandleResponse, ReceiveData;
    DeliveryRuns(sha, Begin(init, driver), acts, v, n, x);
    DeliveryStores(sha, Run(sha, Begin(init, driver), acts), v, n, x);
  }

  /** Without collisions, once a reply was delivered the insurer holds the report, for good. */
  lemma {:induction false} DeliveredForGood(sha: Hasher, init: Option<AccountId>, driver: Option<AccountId>,
                                            acts: seq<Action>, v: AccountId, n: u32, x: DataHash, more: seq<Action>)
    requires Response(v, n, x) in Run(sha, Begin(init, driver), acts).network
    requires NoCollision(sha, Run(sha, Begin(init, driver), acts + [ResponseArrives(v, n, x)] + more).hashed)
    ensures var data := Run(sha, Begin(init, driver), acts + [ResponseArrives(v, n, x)] + more).insurance.data;
      Key(sha, v, n) in data && data[Key(sha, v, n)] == x
    ensures 1 <= n <= |Reported(init, acts, v)| && Reported(init, acts, v)[n - 1] == x
  {
    hide Run, Key, HandleResponse, ReceiveData, NoCollision, Reported, Reports;
    var start, delivered := Begin(init, driver), acts + [ResponseArrives(v, n, x)];
    var w, w1, w2 := Run(sha, start, acts), Run(sha, start, delivered), Run(sha, start, delivered + more);
    DeliveryRuns(sha, start, acts, v, n, x);
    DeliveryStores(sha, w, v, n, x);
    NeverOverwritten(sha, start, acts, [ResponseArrives(v, n, x)]);
    NeverOverwritten(sha, start, delivered, more);
    FewerNoCollision(sha, w.hashed + {(v, n)}, w2.hashed);
    FewerNoCollision(sha, w.hashed, w2.hashed);
    RecordsAreReports(sha, init, driver, acts, v);
    RepliesAgree(sha, init, driver, acts, v, n, x);
    if Key(sha, v, n) in w.insurance.data {
      StoredDataAgrees(sha, init, driver, acts, v, n);
    }
  }

  /** What is stored at the insurer is what the vehicle reported. */
  lemma {:induction false} StoredIsReported(sha: Hasher, init: Option<AccountId>, driver: Option<AccountId>,
                                            acts: seq<Action>, v: AccountId, n: u32)
    requires var w := Run(sha, Begin(init, driver), acts);
      NoCollision(sha, w.hashed + {(v, n)}) && Key(sha, v, n) in w.insurance.data
    ensures 1 <= n <= |Reported(init, acts, v)|
    ensures Run(sha, Begin(init, driver), acts).insurance.data[Key(sha, v, n)] == Reported(init, acts, v)[n - 1]
  {
    hide Run, Key, NoCollision, Reported, Reports;
    var w := Run(sha, Begin(init, driver), acts);
    FewerNoCollision(sha, w.hashed, w.hashed + {(v, n)});
    RecordsAreReports(sha, init, driver, acts, v);
    StoredDataAgrees(sha, init, driver, acts, v, n);
  }

  /**
   From declaration to data: a taken declaration of an accident that was reported by the
   time its request arrives ends, once the reply arrives, with the reported data stored.
   */
  lemma {:induction false} DeclarationAnswered(sha: Hasher, factory: Option<AccountId>, init: Option<AccountId>,
                                               acts: seq<Action>, d: AccountId, v: AccountId, n: u32,
                                               rolledBack: bool, until: seq<Action>, mid: seq<Action>,
                                               more: seq<Action>)
    requires var b := Run(sha, Begin(factory, init), acts).insurance;
      Subscribed(init, acts, d) && Key(sha, d, NextNumber(b, d)) !in b.declared
    requires var asked := acts + [DriverDeclares(Signed(d), v, n, true, rolledBack)] + until;
      && Initialised(factory, asked, v) && 1 <= n <= |Reported(factory, asked, v)|
      && var reply := ResponseArrives(v, n, Reported(factory, asked, v)[n - 1]);
         NoCollision(sha, Run(sha, Begin(factory, init),
                              asked + [RequestArrives(v, n, true)] + mid + [reply] + more).hashed)
    ensures var asked := acts + [DriverDeclares(Signed(d), v, n, true, rolledBack)] + until;
      var x := Reported(factory, asked, v)[n - 1];
      var data := Run(sha, Begin(factory, init),
                      asked + [RequestArrives(v, n, true)] + mid + [ResponseArrives(v, n, x)] + more).insurance.data;
      Key(sha, v, n) in data && data[Key(sha, v, n)] == x
  {
    hide Run, Key, NoCollision, Reported, Initialised, Subscribed;
    var start, declares := Begin(factory, init), DriverDeclares(Signed(d), v, n, true, rolledBack);
    var asked := acts + [declares] + until;
    var x := Reported(factory, asked, v)[n - 1];
    var replied := asked + [RequestArrives(v, n, true)];
    var all := replied + mid + [ResponseArrives(v, n, x)] + more;
    DeclarationHandled(sha, factory, init, acts, d, v, n, true, rolledBack);
    NeverOverwritten(sha, start, acts + [declares], until);
    RequestHashes(sha, start, asked, v, n);
    assert all == replied + (mid + [ResponseArrives(v, n, x)] + more);
    NeverOverwritten(sha, start, replied, mid + [ResponseArrives(v, n, x)] + more);
    NeverOverwritten(sha, start, asked, [RequestArrives(v, n, true)]);
    assert IsVehicle(Run(sha, start, asked).renault, v) by {
      InitialisedIsVehicle(sha, factory, init, asked, v);
    }
    FewerNoCollision(sha, Run(sha, start, asked).hashed + {(v, n - 1)}, Run(sha, start, all).hashed);
    RequestHandled(sha, factory, init, asked, v, n, true);
    NeverOverwritten(sha, start, replied, mid);
    DeliveredForGood(sha, factory, init, replied + mid, v, n, x, more);
  }

  lemma RequestHashes(sha: Hasher, start: World, acts: seq<Action>, v: AccountId, n: u32)
    ensures var w := Run(sha, start, acts);
      Request(v, n) in w.network && IsVehicle(w.renault, v) && n > 0 ==>
        (v, n - 1) in Run(sha, start, acts + [RequestArrives(v, n, true)]).hashed
  {
    hide RequestData;
    assert (acts + [RequestArrives(v, n, true)])[..|acts|] == acts;
  }
}

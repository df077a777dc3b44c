/**
 What the insurer holds agrees with what vehicles reported, and traces back to a
 declaration, however messages are delayed, reordered, repeated or lost.
 */
module CrossChainAgreement {
  import opened Bytes
  import opened CompositeKeys
  import opened Options
  import opened Renault
  import opened Insurance
  import opened CrossChain

  /** A reply carries the manufacturer's record for the accident that was asked about. */
  ghost predicate ResponsesTrue(sha: Hasher, w: World) {
    forall v: AccountId, n: u32, x: DataHash | Response(v, n, x) in w.network ::
      && n >= 1
      && Request(v, n) in w.network
      && (v, n - 1) in w.hashed
      && Key(sha, v, n - 1) in w.renault.accidents
      && w.renault.accidents[Key(sha, v, n - 1)] == x
  }

  /** What is stored arrived in a reply, and sits under the key of the accident replied about. */
  ghost predicate DataFromResponses(sha: Hasher, w: World) {
    && (forall v: AccountId, n: u32, x: DataHash | DataStored(v, n, x) in w.insurance.log ::
          && Response(v, n, x) in w.network
          && (v, n) in w.hashed
          && Key(sha, v, n) in w.insurance.data
          && w.insurance.data[Key(sha, v, n)] == x)
    && (forall k | k in w.insurance.data ::
          exists v, n, x :: DataStored(v, n, x) in w.insurance.log && k == Key(sha, v, n))
  }

  ghost predicate WasDeclared(w: World, v: AccountId, n: u32) {
    exists driver, number :: Declared(driver, number, v, n) in w.insurance.log
  }

  ghost predicate RequestsDeclared(w: World) {
    forall v, n | Request(v, n) in w.network :: WasDeclared(w, v, n)
  }

  /** Declarations are by subscribed drivers and stand under the driver's key. */
  ghost predicate DeclarationsStand(sha: Hasher, w: World) {
    && (forall driver: AccountId, number: u32, v: AccountId, n: u32 |
            Declared(driver, number, v, n) in w.insurance.log ::
          && driver in w.insurance.subscriptions
          && (driver, number) in w.hashed
          && Key(sha, driver, number) in w.insurance.declared
          && w.insurance.declared[Key(sha, driver, number)] == (v, n))
    && (forall k | k in w.insurance.declared ::
          exists driver, number, v, n ::
            Declared(driver, number, v, n) in w.insurance.log && k == Key(sha, driver, number))
  }

  ghost predicate Traced(sha: Hasher, w: World) {
    && ResponsesTrue(sha, w)
    && DataFromResponses(sha, w)
    && RequestsDeclared(w)
    && DeclarationsStand(sha, w)
  }

  /** Records, data and declarations are never overwritten or removed. */
  ghost predicate Keeps(w: World, w': World) {
    && (forall k | k in w.renault.accidents ::
          k in w'.renault.accidents && w'.renault.accidents[k] == w.renault.accidents[k])
    && (forall k | k in w.insurance.data ::
          k in w'.insurance.data && w'.insurance.data[k] == w.insurance.data[k])
    && (forall k | k in w.insurance.declared ::
          k in w'.insurance.declared && w'.insurance.declared[k] == w.insurance.declared[k])
    && w.network <= w'.network
    && w.insurance.subscriptions <= w'.insurance.subscriptions
    && w.insurance.log <= w'.insurance.log
    && w.hashed <= w'.hashed
  }

  lemma ReportKeeps(sha: Hasher, w: World, origin: Origin, data: DataHash)
    ensures Keeps(w, Report(sha, w, origin, data))
  {
    hide Key;
  }

  lemma DeclareKeeps(sha: Hasher, w: World, origin: Origin, v: AccountId, n: u32, sent: bool, rolledBack: bool)
    ensures Keeps(w, DeclareAccident(sha, w, origin, v, n, sent, rolledBack))
  {
    hide Key;
  }

  lemma DeliveryKeeps(sha: Hasher, w: World, v: AccountId, n: u32, sent: bool, data: DataHash)
    ensures Keeps(w, HandleRequest(sha, w, v, n, sent)) && Keeps(w, HandleResponse(sha, w, v, n, data))
  {
    hide Key, RequestData;
  }

  lemma StepKeeps(sha: Hasher, w: World, a: Action)
    ensures Keeps(w, Apply(sha, w, a))
  {
    hide Key, Report, DeclareAccident, HandleRequest, HandleResponse;
    match a {
      case VehicleReports(origin, data) => ReportKeeps(sha, w, origin, data);
      case DriverDeclares(origin, v, n, sent, rolledBack) => DeclareKeeps(sha, w, origin, v, n, sent, rolledBack);
      case RequestArrives(v, n, sent) => DeliveryKeeps(sha, w, v, n, sent, DataHash(0));
      case ResponseArrives(v, n, data) => DeliveryKeeps(sha, w, v, n, true, data);
      case _ =>
    }
  }

  lemma {:induction false} NeverOverwritten(sha: Hasher, start: World, acts: seq<Action>, more: seq<Action>)
    ensures Keeps(Run(sha, start, acts), Run(sha, start, acts + more))
    decreases |more|
  {
    hide Apply, Keeps;
    if more == [] {
      assert acts + more == acts;
      KeepsItself(Run(sha, start, acts));
    } else {
      var less := more[..|more| - 1];
      assert (acts + more)[..|acts + more| - 1] == acts + less;
      NeverOverwritten(sha, start, acts, less);
      StepKeeps(sha, Run(sha, start, acts + less), more[|more| - 1]);
      KeepsTransitive(Run(sha, start, acts), Run(sha, start, acts + less), Run(sha, start, acts + more));
    }
  }

  lemma KeepsItself(w: World)
    ensures Keeps(w, w)
  {
  }

  lemma KeepsTransitive(w1: World, w2: World, w3: World)
    requires Keeps(w1, w2) && Keeps(w2, w3)
    ensures Keeps(w1, w3)
  {
  }

  // ---- Each part of the invariant survives actions that leave it alone ----

  lemma ResponsesKept(sha: Hasher, w: World, w': World)
    requires ResponsesTrue(sha, w) && Keeps(w, w')
    requires forall v, n, x | Response(v, n, x) in w'.network :: Response(v, n, x) in w.network
    ensures ResponsesTrue(sha, w')
  {
  }

  lemma RequestsKept(w: World, w': World)
    requires RequestsDeclared(w) && Keeps(w, w')
    requires forall v, n | Request(v, n) in w'.network :: Request(v, n) in w.network
    ensures RequestsDeclared(w')
  {
  }

  lemma DataKept(sha: Hasher, w: World, w': World)
    requires DataFromResponses(sha, w) && Keeps(w, w') && w'.insurance.data == w.insurance.data
    requires forall v, n, x | DataStored(v, n, x) in w'.insurance.log :: DataStored(v, n, x) in w.insurance.log
    ensures DataFromResponses(sha, w')
  {
  }

  lemma DeclarationsKept(sha: Hasher, w: World, w': World)
    requires DeclarationsStand(sha, w) && Keeps(w, w') && w'.insurance.declared == w.insurance.declared
    requires forall d, c, v, n | Declared(d, c, v, n) in w'.insurance.log :: Declared(d, c, v, n) in w.insurance.log
    ensures DeclarationsStand(sha, w')
  {
  }

  lemma TracedFrame(sha: Hasher, w: World, w': World)
    requires Traced(sha, w) && Keeps(w, w')
    requires w'.network == w.network && w'.insurance.log == w.insurance.log
    requires w'.insurance.data == w.insurance.data && w'.insurance.declared == w.insurance.declared
    ensures Traced(sha, w')
  {
    hide ResponsesTrue, RequestsDeclared, DataFromResponses, DeclarationsStand, Keeps;
    ResponsesKept(sha, w, w');
    RequestsKept(w, w');
    DataKept(sha, w, w');
    DeclarationsKept(sha, w, w');
  }

  // ---- The three actions that extend it ----

  lemma DeclareTraced(sha: Hasher, w: World, origin: Origin, v: AccountId, n: u32, sent: bool, rolledBack: bool)
    requires Traced(sha, w)
    ensures Traced(sha, DeclareAccident(sha, w, origin, v, n, sent, rolledBack))
  {
    hide Key, Traced, Keeps;
    var w' := DeclareAccident(sha, w, origin, v, n, sent, rolledBack);
    StepKeeps(sha, w, DriverDeclares(origin, v, n, sent, rolledBack));
    if w'.insurance.log == w.insurance.log {
      TracedFrame(sha, w, w');
    } else {
      var driver, number := origin.who, NextNumber(w.insurance, origin.who);
      var e := Declared(driver, number, v, n);
      assert w'.insurance.log == w.insurance.log + [e];
      assert e in w'.insurance.log;
      DeclarationAdded(sha, w, w', e);
    }
  }

  lemma DeclarationAdded(sha: Hasher, w: World, w': World, e: Log)
    requires Traced(sha, w) && Keeps(w, w')
    requires e.Declared? && e.driver in w'.insurance.subscriptions && (e.driver, e.number) in w'.hashed
    requires Key(sha, e.driver, e.number) !in w.insurance.declared
    requires w'.insurance.log == w.insurance.log + [e] && w'.insurance.data == w.insurance.data
    requires w'.insurance.declared == w.insurance.declared[Key(sha, e.driver, e.number) := (e.vehicle, e.accident)]
    requires w'.network == w.network || w'.network == w.network + {Request(e.vehicle, e.accident)}
    ensures Traced(sha, w')
  {
    hide Key, ResponsesTrue, DataFromResponses;
    assert e in w'.insurance.log && e == Declared(e.driver, e.number, e.vehicle, e.accident);
    ResponsesKept(sha, w, w');
    DataKept(sha, w, w');
    forall v, n | Request(v, n) in w'.network ensures WasDeclared(w', v, n) {
      if Request(v, n) in w.network {
        var d, c :| Declared(d, c, v, n) in w.insurance.log;
        assert Declared(d, c, v, n) in w'.insurance.log;
      }
    }
    forall k | k in w'.insurance.declared
      ensures exists d, c, v, n :: Declared(d, c, v, n) in w'.insurance.log && k == Key(sha, d, c)
    {
      if k in w.insurance.declared {
        var d, c, v, n :| Declared(d, c, v, n) in w.insurance.log && k == Key(sha, d, c);
        assert Declared(d, c, v, n) in w'.insurance.log;
      }
    }
  }

  lemma RequestTraced(sha: Hasher, w: World, v: AccountId, n: u32, sent: bool)
    requires Traced(sha, w)
    ensures Traced(sha, HandleRequest(sha, w, v, n, sent))
  {
    hide Key, Traced, Keeps;
    var w' := HandleRequest(sha, w, v, n, sent);
    StepKeeps(sha, w, RequestArrives(v, n, sent));
    var r := RequestData(sha, w.renault, INSURER, v, n, sent);
    if Request(v, n) in w.network && r.Ok? {
      ResponseAdded(sha, w, w', v, n, r.value);
    } else {
      TracedFrame(sha, w, w');
    }
  }

  lemma OneMoreTrue(sha: Hasher, w: World, w': World, v: AccountId, n: u32, x: DataHash)
    requires ResponsesTrue(sha, w) && Request(v, n) in w.network && n >= 1
    requires w.hashed <= w'.hashed && (v, n - 1) in w'.hashed && w'.renault == w.renault
    requires Key(sha, v, n - 1) in w.renault.accidents && w.renault.accidents[Key(sha, v, n - 1)] == x
    requires w'.network == w.network + {Response(v, n, x)}
    ensures ResponsesTrue(sha, w')
  {
    hide Key;
  }

  lemma ResponseAdded(sha: Hasher, w: World, w': World, v: AccountId, n: u32, x: DataHash)
    requires Traced(sha, w) && Keeps(w, w') && Request(v, n) in w.network && n >= 1 && (v, n - 1) in w'.hashed
    requires Key(sha, v, n - 1) in w.renault.accidents && w.renault.accidents[Key(sha, v, n - 1)] == x
    requires w' == w.(network := w.network + {Response(v, n, x)}, hashed := w'.hashed)
    ensures Traced(sha, w')
  {
    hide Key, ResponsesTrue, RequestsDeclared, DataFromResponses, DeclarationsStand;
    RequestsKept(w, w');
    DataKept(sha, w, w');
    DeclarationsKept(sha, w, w');
    OneMoreTrue(sha, w, w', v, n, x);
  }

  lemma ResponseTraced(sha: Hasher, w: World, v: AccountId, n: u32, x: DataHash)
    requires Traced(sha, w)
    ensures Traced(sha, HandleResponse(sha, w, v, n, x))
  {
    hide Key, Traced, Keeps;
    var w' := HandleResponse(sha, w, v, n, x);
    StepKeeps(sha, w, ResponseArrives(v, n, x));
    if w'.insurance.log == w.insurance.log {
      TracedFrame(sha, w, w');
    } else {
      var e := DataStored(v, n, x);
      assert w'.insurance.log == w.insurance.log + [e] && e in w'.insurance.log;
      DataAdded(sha, w, w', e);
    }
  }

  lemma DataAdded(sha: Hasher, w: World, w': World, e: Log)
    requires Traced(sha, w) && Keeps(w, w')
    requires e.DataStored? && (e.subject, e.count) in w'.hashed && Response(e.subject, e.count, e.data) in w.network
    requires Key(sha, e.subject, e.count) !in w.insurance.data
    requires w'.insurance.log == w.insurance.log + [e] && w'.insurance.declared == w.insurance.declared
    requires w'.insurance.data == w.insurance.data[Key(sha, e.subject, e.count) := e.data]
    requires w'.network == w.network
    ensures Traced(sha, w')
  {
    hide Key, ResponsesTrue, RequestsDeclared, DeclarationsStand;
    assert e in w'.insurance.log && e == DataStored(e.subject, e.count, e.data);
    ResponsesKept(sha, w, w');
    RequestsKept(w, w');
    DeclarationsKept(sha, w, w');
    forall k | k in w'.insurance.data
      ensures exists v, n, x :: DataStored(v, n, x) in w'.insurance.log && k == Key(sha, v, n)
    {
      if k in w.insurance.data {
        var v, n, x :| DataStored(v, n, x) in w.insurance.log && k == Key(sha, v, n);
        assert DataStored(v, n, x) in w'.insurance.log;
      }
    }
  }

  lemma StepTraced(sha: Hasher, w: World, a: Action)
    requires Traced(sha, w)
    ensures Traced(sha, Apply(sha, w, a))
  {
    hide Key, Traced, Keeps, DeclareAccident, HandleRequest, HandleResponse;
    match a {
      case DriverDeclares(origin, v, n, sent, rolledBack) => DeclareTraced(sha, w, origin, v, n, sent, rolledBack);
      case RequestArrives(v, n, sent) => RequestTraced(sha, w, v, n, sent);
      case ResponseArrives(v, n, x) => ResponseTraced(sha, w, v, n, x);
      case _ =>
        StepKeeps(sha, w, a);
        TracedFrame(sha, w, Apply(sha, w, a));
    }
  }

  /** In every run, with no assumption on the hash, everything held or in flight is traced. */
  lemma {:induction false} RunTraced(sha: Hasher, factory: Option<AccountId>,
                                     driver: Option<AccountId>, acts: seq<Action>)
    ensures Traced(sha, Run(sha, Begin(factory, driver), acts))
  {
    hide Apply;
    if acts != [] {
      RunTraced(sha, factory, driver, acts[..|acts| - 1]);
      StepTraced(sha, Run(sha, Begin(factory, driver), acts[..|acts| - 1]), acts[|acts| - 1]);
    }
  }

  /** A reply in flight, or its data once stored, is the report it was asked for. */
  lemma {:induction false} RepliesAgree(sha: Hasher, factory: Option<AccountId>,
                                        driver: Option<AccountId>, acts: seq<Action>,
                                        v: AccountId, n: u32, x: DataHash)
    requires var w := Run(sha, Begin(factory, driver), acts);
      && NoCollision(sha, w.hashed)
      && (Response(v, n, x) in w.network || DataStored(v, n, x) in w.insurance.log)
    ensures var reps := Reports(Run(sha, Begin(factory, driver), acts).renault.events, v);
      1 <= n <= |reps| && reps[n - 1] == x
  {
    hide Key, Reports, Run, NoCollision, Dense;
    var w := Run(sha, Begin(factory, driver), acts);
    RunTraced(sha, factory, driver, acts);
    RunDense(sha, factory, driver, acts);
    assert w.hashed + {(v, n - 1)} == w.hashed;
    StoredExactly(sha, w, v, n - 1);
  }

  /** Data found under the key of an accident is the vehicle's report of that accident. */
  lemma {:induction false} StoredDataAgrees(sha: Hasher, factory: Option<AccountId>,
                                            driver: Option<AccountId>, acts: seq<Action>,
                                            v: AccountId, n: u32)
    requires var w := Run(sha, Begin(factory, driver), acts);
      NoCollision(sha, w.hashed + {(v, n)}) && Key(sha, v, n) in w.insurance.data
    ensures var w := Run(sha, Begin(factory, driver), acts); var reps := Reports(w.renault.events, v);
      1 <= n <= |reps| && w.insurance.data[Key(sha, v, n)] == reps[n - 1]
  {
    hide Key, Reports, Run, NoCollision;
    var w := Run(sha, Begin(factory, driver), acts);
    RunTraced(sha, factory, driver, acts);
    var v', n', x :| DataStored(v', n', x) in w.insurance.log && Key(sha, v, n) == Key(sha, v', n');
    SameKeySameOwner(sha, w.hashed + {(v, n)}, (v, n), (v', n'));
    FewerNoCollision(sha, w.hashed, w.hashed + {(v, n)});
    RepliesAgree(sha, factory, driver, acts, v, n, x);
  }

  /** Requests, replies and stored data all concern an accident a subscribed driver declared. */
  lemma {:induction false} Traceable(sha: Hasher, factory: Option<AccountId>,
                                     driver: Option<AccountId>, acts: seq<Action>,
                                     v: AccountId, n: u32, x: DataHash) returns (who: AccountId, number: u32)
    requires var w := Run(sha, Begin(factory, driver), acts);
      Request(v, n) in w.network || Response(v, n, x) in w.network || DataStored(v, n, x) in w.insurance.log
    ensures var b := Run(sha, Begin(factory, driver), acts).insurance;
      && Declared(who, number, v, n) in b.log
      && who in b.subscriptions
      && Key(sha, who, number) in b.declared
      && b.declared[Key(sha, who, number)] == (v, n)
  {
    hide Key, Run;
    var w := Run(sha, Begin(factory, driver), acts);
    RunTraced(sha, factory, driver, acts);
    assert WasDeclared(w, v, n);
    who, number :| Declared(who, number, v, n) in w.insurance.log;
  }
}

/**
 The manufacturer's chain: the registry of factories and vehicles, and the accidents
 vehicles report about themselves.
 */
module Renault {
  import opened Bytes
  import opened CompositeKeys
  import opened Options

  datatype DataHash = DataHash(bits: nat)
  datatype Origin = Root | Signed(who: AccountId) | Sibling(para: nat)

  /** Why a call was refused. */
  datatype Error =
    | BadOrigin
    | FactoryAlreadyStored | UnknownFactory | UnknownVehicle | VehicleAlreadyStored | VehicleNotMatchingOrigin
    | AccidentAlreadyStored | VehicleStatusError | IpfsStatusError
    | GetVehicleAccidentDataBadCount | GetVehicleAccidentDataNotExist
    | CannotFindData | SendXcmError

  datatype Result<+T> = Ok(value: T) | Err(error: Error)

  /** An accident recorded for a vehicle under a number. */
  datatype AccidentStored = AccidentStored(vehicle: AccountId, number: u32, data: DataHash)

  datatype State = State(
    factories: set<AccountId>,
    vehicles: map<AccountId, AccountId>,
    status: map<AccountId, bool>,
    accidents: map<seq<byte>, DataHash>,
    counts: map<AccountId, u32>,
    ipfs: map<DataHash, nat>,
    events: seq<AccidentStored>)

  function Genesis(init: Option<AccountId>): State {
    match init
    case None => State({}, map[], map[], map[], map[], map[], [])
    case Some(a) => State({a}, map[a := a], map[a := true], map[], map[], map[], [])
  }

  predicate IsVehicle(st: State, v: AccountId) {
    v in st.status && st.status[v]
  }

  function Count(st: State, v: AccountId): u32 {
    if v in st.counts then st.counts[v] else 0
  }

  function CreateFactory(st: State, origin: Origin, f: AccountId): (State, Result<()>) {
    if !origin.Root? then (st, Err(BadOrigin))
    else if f in st.factories then (st, Err(FactoryAlreadyStored))
    else (st.(factories := st.factories + {f}), Ok(()))
  }

  function CreateVehicle(st: State, origin: Origin, v: AccountId): (State, Result<()>) {
    if !origin.Signed? then (st, Err(BadOrigin))
    else if origin.who !in st.factories then (st, Err(UnknownFactory))
    else if v in st.vehicles then (st, Err(VehicleAlreadyStored))
    else (st.(vehicles := st.vehicles[v := origin.who]), Ok(()))
  }

  function InitVehicle(st: State, origin: Origin, v: AccountId): (State, Result<()>) {
    if !origin.Signed? then (st, Err(BadOrigin))
    else if origin.who !in st.vehicles then (st, Err(UnknownVehicle))
    else if origin.who != v then (st, Err(VehicleNotMatchingOrigin))
    else (st.(status := st.status[v := true]), Ok(()))
  }

  function ReportAccident(sha: Hasher, st: State, origin: Origin, data: DataHash): (State, Result<()>) {
    if !origin.Signed? then (st, Err(BadOrigin))
    else if !IsVehicle(st, origin.who) then (st, Err(UnknownVehicle))
    else
      var v := origin.who;
      var count := Count(st, v);
      var key := Key(sha, v, count);
      if key in st.accidents then (st, Err(AccidentAlreadyStored))
      else (st.(accidents := st.accidents[key := data],
                ipfs := st.ipfs[data := 0],
                counts := st.counts[v := Increment(count)],
                events := st.events + [AccidentStored(v, count, data)]), Ok(()))
  }

  /** The data of the `n`-th accident of `v`, counting from one. */
  function GetAccidentData(sha: Hasher, st: State, v: AccountId, n: u32): Result<DataHash> {
    if n == 0 then Err(GetVehicleAccidentDataBadCount)
    else
      var key := Key(sha, v, n - 1);
      if key in st.accidents then Ok(st.accidents[key]) else Err(GetVehicleAccidentDataNotExist)
  }

  /** What is sent back when a sibling chain asks for accident data; `sent` is the transport's answer. */
  function RequestData(sha: Hasher, st: State, origin: Origin, v: AccountId, n: u32, sent: bool): Result<DataHash> {
    if !origin.Sibling? then Err(BadOrigin)
    else if !IsVehicle(st, v) then Err(VehicleStatusError)
    else
      match GetAccidentData(sha, st, v, n)
      case Err(_) => Err(CannotFindData)
      case Ok(data) => if sent then Ok(data) else Err(SendXcmError)
  }

  function SetIpfsStatus(st: State, origin: Origin, id: DataHash, status: nat): (State, Result<()>) {
    if !origin.Signed? then (st, Err(BadOrigin))
    else if id !in st.ipfs then (st, Err(IpfsStatusError))
    else (st.(ipfs := st.ipfs[id := status]), Ok(()))
  }

  /** The two pallets' storage, updated in place. */
  class Chain {
    const sha: Hasher
    var factories: set<AccountId>
    var vehicles: map<AccountId, AccountId>
    var status: map<AccountId, bool>
    var accidents: map<seq<byte>, DataHash>
    var counts: map<AccountId, u32>
    var ipfs: map<DataHash, nat>
    var events: seq<AccidentStored>

    function Contents(): State
      reads this
    {
      State(factories, vehicles, status, accidents, counts, ipfs, events)
    }

    constructor (sha: Hasher, init: Option<AccountId>)
      ensures this.sha == sha && Contents() == Genesis(init)
    {
      this.sha := sha;
      factories, vehicles, status := {}, map[], map[];
      accidents, counts, ipfs, events := map[], map[], map[], [];
      if init.Some? {
        factories, vehicles, status := {init.value}, map[init.value := init.value], map[init.value := true];
      }
    }

    method AddFactory(origin: Origin, f: AccountId) returns (r: Result<()>)
      modifies this`factories
      ensures (Contents(), r) == CreateFactory(old(Contents()), origin, f)
    {
      if !origin.Root? { return Err(BadOrigin); }
      if f in factories { return Err(FactoryAlreadyStored); }
      factories := factories + {f};
      r := Ok(());
    }

    method AddVehicle(origin: Origin, v: AccountId) returns (r: Result<()>)
      modifies this`vehicles
      ensures (Contents(), r) == CreateVehicle(old(Contents()), origin, v)
    {
      if !origin.Signed? { return Err(BadOrigin); }
      if origin.who !in factories { return Err(UnknownFactory); }
      if v in vehicles { return Err(VehicleAlreadyStored); }
      vehicles := vehicles[v := origin.who];
      r := Ok(());
    }

    method Initialize(origin: Origin, v: AccountId) returns (r: Result<()>)
      modifies this`status
      ensures (Contents(), r) == InitVehicle(old(Contents()), origin, v)
    {
      if !origin.Signed? { return Err(BadOrigin); }
      if origin.who !in vehicles { return Err(UnknownVehicle); }
      if origin.who != v { return Err(VehicleNotMatchingOrigin); }
      status := status[v := true];
      r := Ok(());
    }

    method Report(origin: Origin, data: DataHash) returns (r: Result<()>)
      modifies this
      ensures (Contents(), r) == ReportAccident(sha, old(Contents()), origin, data)
    {
      if !origin.Signed? { return Err(BadOrigin); }
      var v := origin.who;
      if !(v in status && status[v]) { return Err(UnknownVehicle); }
      var count: u32 := 0;
      if v in counts { count := counts[v]; }
      var key := CreateCompositeKey(sha, [v, LittleEndian(count)]);
      if key in accidents { return Err(AccidentAlreadyStored); }
      accidents := accidents[key := data];
      ipfs := ipfs[data := 0];
      counts := counts[v := Increment(count)];
      events := events + [AccidentStored(v, count, data)];
      r := Ok(());
    }

    method Fetch(v: AccountId, n: u32) returns (r: Result<DataHash>)
      ensures r == GetAccidentData(sha, Contents(), v, n)
    {
      if n <= 0 { return Err(GetVehicleAccidentDataBadCount); }
      var key := CreateCompositeKey(sha, [v, LittleEndian(n - 1)]);
      if key !in accidents { return Err(GetVehicleAccidentDataNotExist); }
      r := Ok(accidents[key]);
    }

    method AnswerRequest(origin: Origin, v: AccountId, n: u32, sent: bool) returns (r: Result<DataHash>)
      ensures r == RequestData(sha, Contents(), origin, v, n, sent)
    {
      if !origin.Sibling? { return Err(BadOrigin); }
      if !(v in status && status[v]) { return Err(VehicleStatusError); }
      r := Fetch(v, n);
      if r.Err? { return Err(CannotFindData); }
      if !sent { return Err(SendXcmError); }
    }

    method CheckIpfs(origin: Origin, id: DataHash, verdict: nat) returns (r: Result<()>)
      modifies this`ipfs
      ensures (Contents(), r) == SetIpfsStatus(old(Contents()), origin, id, verdict)
    {
      if !origin.Signed? { return Err(BadOrigin); }
      if id !in ipfs { return Err(IpfsStatusError); }
      ipfs := ipfs[id := verdict];
      r := Ok(());
    }
  }
}

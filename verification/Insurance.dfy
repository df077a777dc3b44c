/**
 The insurer's chain: subscribed drivers declare accidents, each declaration asks the
 manufacturer's chain for data, and the data received is stored once.
 */
module Insurance {
  import opened Bytes
  import opened CompositeKeys
  import opened Options
  import opened Renault

  datatype Failure =
    | NotSigned | NotSibling
    | UnknownDriver | DeclarationAlreadyStored | AccidentDataAlreadyStored | ErrorRequestData

  datatype Reply = Done | Refused(failure: Failure)

  datatype Log =
    | Declared(driver: AccountId, number: u32, vehicle: AccountId, accident: u32)
    | DataStored(subject: AccountId, count: u32, data: DataHash)

  datatype Book = Book(
    subscriptions: set<AccountId>,
    declared: map<seq<byte>, (AccountId, u32)>,
    declaredCounts: map<AccountId, u32>,
    data: map<seq<byte>, DataHash>,
    log: seq<Log>)

  function Open(init: Option<AccountId>): Book {
    Book(if init.Some? then {init.value} else {}, map[], map[], map[], [])
  }

  function SignUp(b: Book, origin: Origin): (Book, Reply) {
    if !origin.Signed? then (b, Refused(NotSigned))
    else (b.(subscriptions := b.subscriptions + {origin.who}), Done)
  }

  /** The number the next declaration of `driver` will carry. */
  function NextNumber(b: Book, driver: AccountId): u32 {
    if driver in b.declaredCounts then b.declaredCounts[driver] else 0
  }

  /** The book with a declaration written; its counter is the one of the vehicle. */
  function Write(sha: Hasher, b: Book, driver: AccountId, v: AccountId, n: u32): Book {
    var number := NextNumber(b, driver);
    b.(declared := b.declared[Key(sha, driver, number) := (v, n)],
       declaredCounts := b.declaredCounts[v := Increment(number)],
       log := b.log + [Declared(driver, number, v, n)])
  }

  /**
   A declaration. `sent` is the transport's answer to the request for data; if it is
   negative the call fails, and `rolledBack` says whether the framework undoes its writes.
   */
  function Declare(sha: Hasher, b: Book, origin: Origin, v: AccountId, n: u32, sent: bool, rolledBack: bool)
    : (Book, Reply)
  {
    if !origin.Signed? then (b, Refused(NotSigned))
    else if origin.who !in b.subscriptions then (b, Refused(UnknownDriver))
    else if Key(sha, origin.who, NextNumber(b, origin.who)) in b.declared then (b, Refused(DeclarationAlreadyStored))
    else if sent then (Write(sha, b, origin.who, v, n), Done)
    else (if rolledBack then b else Write(sha, b, origin.who, v, n), Refused(ErrorRequestData))
  }

  function ReceiveData(sha: Hasher, b: Book, origin: Origin, v: AccountId, n: u32, data: DataHash): (Book, Reply) {
    if !origin.Sibling? then (b, Refused(NotSibling))
    else if Key(sha, v, n) in b.data then (b, Refused(AccidentDataAlreadyStored))
    else (b.(data := b.data[Key(sha, v, n) := data], log := b.log + [DataStored(v, n, data)]), Done)
  }

  /** The two pallets' storage, updated in place. */
  class Chain {
    const sha: Hasher
    var subscriptions: set<AccountId>
    var declared: map<seq<byte>, (AccountId, u32)>
    var declaredCounts: map<AccountId, u32>
    var data: map<seq<byte>, DataHash>
    var log: seq<Log>

    function Contents(): Book
      reads this
    {
      Book(subscriptions, declared, declaredCounts, data, log)
    }

    constructor (sha: Hasher, init: Option<AccountId>)
      ensures this.sha == sha && Contents() == Open(init)
    {
      this.sha := sha;
      subscriptions, declared, declaredCounts, data, log := {}, map[], map[], map[], [];
      if init.Some? {
        subscriptions := {init.value};
      }
    }

    method Subscribe(origin: Origin) returns (r: Reply)
      modifies this`subscriptions
      ensures (Contents(), r) == SignUp(old(Contents()), origin)
    {
      if !origin.Signed? { return Refused(NotSigned); }
      subscriptions := subscriptions + {origin.who};
      r := Done;
    }

    /** Writes the declaration, then reports whether the request for data could be sent. */
    method Report(origin: Origin, v: AccountId, n: u32, sent: bool) returns (r: Reply)
      modifies this
      ensures (Contents(), r) == Declare(sha, old(Contents()), origin, v, n, sent, false)
    {
      if !origin.Signed? { return Refused(NotSigned); }
      var driver := origin.who;
      if driver !in subscriptions { return Refused(UnknownDriver); }
      var count: u32 := 0;
      if driver in declaredCounts { count := declaredCounts[driver]; }
      var key := CreateCompositeKey(sha, [driver, LittleEndian(count)]);
      if key in declared { return Refused(DeclarationAlreadyStored); }
      declared := declared[key := (v, n)];
      declaredCounts := declaredCounts[v := Increment(count)];
      log := log + [Declared(driver, count, v, n)];
      if !sent { return Refused(ErrorRequestData); }
      r := Done;
    }

    method Receive(origin: Origin, v: AccountId, n: u32, x: DataHash) returns (r: Reply)
      modifies this`data, this`log
      ensures (Contents(), r) == ReceiveData(sha, old(Contents()), origin, v, n, x)
    {
      if !origin.Sibling? { return Refused(NotSibling); }
      var key := CreateCompositeKey(sha, [v, LittleEndian(n)]);
      if key in data { return Refused(AccidentDataAlreadyStored); }
      data := data[key := x];
      log := log + [DataStored(v, n, x)];
      r := Done;
    }
  }
}

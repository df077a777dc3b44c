/**
 How declarations are numbered. The counter is read under the driver but written under
 the vehicle, so a driver's numbers follow the declarations that name the driver as a
 vehicle; this module says exactly what that means for drivers.
 */
module InsuranceNumbering {
  import opened Bytes
  import opened CompositeKeys
  import opened Options
  import opened Renault
  import opened Insurance

  datatype Call =
    | Subscribing(origin: Origin)
    | Declaring(origin: Origin, vehicle: AccountId, accident: u32, sent: bool, rolledBack: bool)
    | Receiving(origin: Origin, subject: AccountId, count: u32, data: DataHash)

  function Apply(sha: Hasher, b: Book, c: Call): Book {
    match c
    case Subscribing(origin) => SignUp(b, origin).0
    case Declaring(origin, v, n, sent, rolledBack) => Declare(sha, b, origin, v, n, sent, rolledBack).0
    case Receiving(origin, v, n, x) => ReceiveData(sha, b, origin, v, n, x).0
  }

  function Run(sha: Hasher, init: Option<AccountId>, calls: seq<Call>): Book {
    if calls == [] then Open(init) else Apply(sha, Run(sha, init, calls[..|calls| - 1]), calls[|calls| - 1])
  }

  /** One more than the number of the latest declaration naming `a` as the vehicle; zero if none does. */
  function AfterNaming(log: seq<Log>, a: AccountId): u32 {
    if log == [] then 0
    else
      var last := log[|log| - 1];
      if last.Declared? && last.vehicle == a then Increment(last.number) else AfterNaming(log[..|log| - 1], a)
  }

  ghost predicate NeverNamed(log: seq<Log>, a: AccountId) {
    forall e | e in log && e.Declared? :: e.vehicle != a
  }

  /** All declarations by `a`, and all that name `a` as the vehicle, are by `a` on `a`. */
  ghost predicate OnlyItself(log: seq<Log>, a: AccountId) {
    forall e | e in log && e.Declared? && (e.driver == a || e.vehicle == a) :: e.driver == a && e.vehicle == a
  }

  /** The numbers of the declarations made by `a`, in order. */
  function Numbers(log: seq<Log>, a: AccountId): seq<u32> {
    if log == [] then []
    else
      var last := log[|log| - 1];
      Numbers(log[..|log| - 1], a) + if last.Declared? && last.driver == a then [last.number] else []
  }

  /** Each declaration carries the number its driver had when it was made. */
  ghost predicate LogNumbered(log: seq<Log>) {
    forall i | 0 <= i < |log| && log[i].Declared? :: log[i].number == AfterNaming(log[..i], log[i].driver)
  }

  ghost predicate CountersFollow(b: Book) {
    forall a :: NextNumber(b, a) == AfterNaming(b.log, a)
  }

  /** Declarations are stored under their own keys, and nothing else is. */
  ghost predicate Standing(sha: Hasher, b: Book) {
    && (forall e | e in b.log && e.Declared? :: Key(sha, e.driver, e.number) in b.declared)
    && (forall k | k in b.declared ::
          exists e :: e in b.log && e.Declared? && k == Key(sha, e.driver, e.number))
  }

  /** No driver has two declarations of one number. */
  ghost predicate NumbersDistinct(log: seq<Log>) {
    forall i, j | 0 <= i < j < |log| && log[i].Declared? && log[j].Declared? && log[i].driver == log[j].driver ::
      log[i].number != log[j].number
  }

  ghost predicate Numbered(sha: Hasher, b: Book) {
    LogNumbered(b.log) && CountersFollow(b) && Standing(sha, b) && NumbersDistinct(b.log)
  }

  lemma AfterNamingOneMore(log: seq<Log>, e: Log, a: AccountId)
    ensures AfterNaming(log + [e], a) ==
            if e.Declared? && e.vehicle == a then Increment(e.number) else AfterNaming(log, a)
  {
  }

  lemma LogNumberedOneMore(log: seq<Log>, e: Log)
    requires LogNumbered(log) && (e.Declared? ==> e.number == AfterNaming(log, e.driver))
    ensures LogNumbered(log + [e])
  {
    hide AfterNaming;
    var all := log + [e];
    forall i | 0 <= i < |all| && all[i].Declared? ensures all[i].number == AfterNaming(all[..i], all[i].driver) {
      if i < |log| {
        assert all[..i] == log[..i] && all[i] == log[i];
      } else {
        assert all[..i] == log;
      }
    }
  }

  lemma StandingOneMore(sha: Hasher, b: Book, b': Book, e: Log)
    requires Standing(sha, b) && b'.log == b.log + [e]
    requires b'.declared == if e.Declared? then b.declared[Key(sha, e.driver, e.number) := (e.vehicle, e.accident)]
                            else b.declared
    ensures Standing(sha, b')
  {
  }

  lemma WriteNumbered(sha: Hasher, b: Book, driver: AccountId, v: AccountId, n: u32)
    requires Numbered(sha, b) && Key(sha, driver, NextNumber(b, driver)) !in b.declared
    ensures Numbered(sha, Write(sha, b, driver, v, n))
  {
    hide Key, LogNumbered, AfterNaming;
    var b', e := Write(sha, b, driver, v, n), Declared(driver, NextNumber(b, driver), v, n);
    LogNumberedOneMore(b.log, e);
    StandingOneMore(sha, b, b', e);
    forall a ensures NextNumber(b', a) == AfterNaming(b'.log, a) {
      AfterNamingOneMore(b.log, e, a);
      assert NextNumber(b, a) == AfterNaming(b.log, a);
    }
  }

  lemma ReceiveNumbered(sha: Hasher, b: Book, e: Log, data: map<seq<byte>, DataHash>)
    requires Numbered(sha, b) && e.DataStored?
    ensures Numbered(sha, b.(data := data, log := b.log + [e]))
  {
    hide Key, LogNumbered, Standing, AfterNaming;
    var b' := b.(data := data, log := b.log + [e]);
    LogNumberedOneMore(b.log, e);
    StandingOneMore(sha, b, b', e);
    forall a ensures NextNumber(b', a) == AfterNaming(b'.log, a) {
      AfterNamingOneMore(b.log, e, a);
      assert NextNumber(b, a) == AfterNaming(b.log, a);
    }
  }

  /** In every run numbers follow the naming of vehicles. */
  lemma {:induction false} RunNumbered(sha: Hasher, init: Option<AccountId>, calls: seq<Call>)
    ensures Numbered(sha, Run(sha, init, calls))
  {
    hide Key, Numbered, Write;
    if calls == [] {
      OpenNumbered(sha, init);
    } else {
      var b, c := Run(sha, init, calls[..|calls| - 1]), calls[|calls| - 1];
      RunNumbered(sha, init, calls[..|calls| - 1]);
      match c {
        case Subscribing(origin) => SignUpNumbered(sha, b, origin);
        case Declaring(origin, v, n, sent, rolledBack) =>
          if origin.Signed? && Key(sha, origin.who, NextNumber(b, origin.who)) !in b.declared {
            WriteNumbered(sha, b, origin.who, v, n);
          }
        case Receiving(origin, v, n, x) =>
          ReceiveNumbered(sha, b, DataStored(v, n, x), b.data[Key(sha, v, n) := x]);
      }
    }
  }

  lemma OpenNumbered(sha: Hasher, init: Option<AccountId>)
    ensures Numbered(sha, Open(init))
  {
  }

  lemma SignUpNumbered(sha: Hasher, b: Book, origin: Origin)
    requires Numbered(sha, b)
    ensures Numbered(sha, SignUp(b, origin).0)
  {
  }

  /** The accounts and numbers whose keys hold declarations. */
  ghost function Pairs(log: seq<Log>): set<(AccountId, u32)> {
    set e | e in log && e.Declared? :: (e.driver, e.number)
  }

  /** A subscribed driver is refused exactly if it already has a declaration of that number. */
  lemma {:induction false} RefusedExactly(sha: Hasher, init: Option<AccountId>, calls: seq<Call>,
                       driver: AccountId, v: AccountId, n: u32, sent: bool, rolledBack: bool)
    requires var b := Run(sha, init, calls);
      && driver in b.subscriptions
      && NoCollision(sha, Pairs(b.log) + {(driver, AfterNaming(b.log, driver))})
    ensures var b := Run(sha, init, calls);
      Declare(sha, b, Signed(driver), v, n, sent, rolledBack).1 == Refused(DeclarationAlreadyStored)
      <==> AfterNaming(b.log, driver) in Numbers(b.log, driver)
  {
    hide Key, NoCollision, Run;
    var b := Run(sha, init, calls);
    RunNumbered(sha, init, calls);
    var m := AfterNaming(b.log, driver);
    assert NextNumber(b, driver) == m;
    NumbersInLog(b.log, driver, m);
    if Key(sha, driver, m) in b.declared {
      var e :| e in b.log && e.Declared? && Key(sha, driver, m) == Key(sha, e.driver, e.number);
      SameKeySameOwner(sha, Pairs(b.log) + {(driver, m)}, (driver, m), (e.driver, e.number));
    }
  }

  lemma {:induction false} NumbersInLog(log: seq<Log>, a: AccountId, m: u32)
    ensures m in Numbers(log, a) <==> exists e :: e in log && e.Declared? && e.driver == a && e.number == m
  {
    if log != [] {
      var before, last := log[..|log| - 1], log[|log| - 1];
      NumbersInLog(before, a, m);
      assert log == before + [last];
      if exists e :: e in before && e.Declared? && e.driver == a && e.number == m {
        var e :| e in before && e.Declared? && e.driver == a && e.number == m;
        assert e in log;
      }
    }
  }

  lemma {:induction false} NeverNamedZero(log: seq<Log>, a: AccountId)
    requires NeverNamed(log, a)
    ensures AfterNaming(log, a) == 0
  {
    if log != [] {
      assert log[|log| - 1] in log;
      assert forall e | e in log[..|log| - 1] :: e in log;
      NeverNamedZero(log[..|log| - 1], a);
    }
  }

  /** A driver no declaration names as a vehicle can declare one accident, and never a second. */
  lemma {:induction false} SecondDeclarationRefused(sha: Hasher, init: Option<AccountId>, calls: seq<Call>,
                                 driver: AccountId, v: AccountId, n: u32, sent: bool, rolledBack: bool)
    requires var b := Run(sha, init, calls);
      driver in b.subscriptions && NeverNamed(b.log, driver) && Numbers(b.log, driver) != []
    ensures var b := Run(sha, init, calls);
      Declare(sha, b, Signed(driver), v, n, sent, rolledBack) == (b, Refused(DeclarationAlreadyStored))
  {
    hide Key, Run;
    var b := Run(sha, init, calls);
    RunNumbered(sha, init, calls);
    NeverNamedZero(b.log, driver);
    var m := Numbers(b.log, driver)[0];
    NumbersInLog(b.log, driver, m);
    var e :| e in b.log && e.Declared? && e.driver == driver && e.number == m;
    var i :| 0 <= i < |b.log| && b.log[i] == e;
    NeverNamedZero(b.log[..i], driver);
    assert NextNumber(b, driver) == AfterNaming(b.log, driver) == 0;
    assert Key(sha, driver, 0) in b.declared;
  }

  lemma NumbersOneMore(log: seq<Log>, e: Log, a: AccountId)
    ensures Numbers(log + [e], a) == Numbers(log, a) + if e.Declared? && e.driver == a then [e.number] else []
  {
  }

  lemma LogNumberedLast(before: seq<Log>, last: Log)
    requires LogNumbered(before + [last])
    ensures LogNumbered(before)
    ensures last.Declared? ==> last.number == AfterNaming(before, last.driver)
  {
    hide AfterNaming;
    var log := before + [last];
    assert log[..|before|] == before && log[|before|] == last;
    forall i | 0 <= i < |before| && before[i].Declared?
      ensures before[i].number == AfterNaming(before[..i], before[i].driver)
    {
      assert before[..i] == log[..i] && before[i] == log[i];
    }
  }

  lemma OnlyItselfLast(before: seq<Log>, last: Log, a: AccountId)
    requires OnlyItself(before + [last], a)
    ensures OnlyItself(before, a)
    ensures last.Declared? ==> (last.driver == a <==> last.vehicle == a)
  {
  }

  /** The numbers of `a`'s declarations are 0, 1, 2 and so on, wrapping at 2^32. */
  ghost predicate Gapless(log: seq<Log>, a: AccountId) {
    forall i | 0 <= i < |Numbers(log, a)| :: Numbers(log, a)[i] == i % WRAP
  }

  lemma GaplessLast(before: seq<Log>, last: Log, a: AccountId)
    ensures Gapless(before + [last], a) <==>
            && Gapless(before, a)
            && (last.Declared? && last.driver == a ==> last.number == |Numbers(before, a)| % WRAP)
  {
    NumbersOneMore(before, last, a);
    hide Numbers;
    var numbers, numbers' := Numbers(before, a), Numbers(before + [last], a);
    assert forall i | 0 <= i < |numbers| :: numbers'[i] == numbers[i];
    if last.Declared? && last.driver == a {
      assert numbers'[|numbers|] == last.number;
    }
  }

  /** Drivers who only ever declare on themselves are numbered without gaps. */
  lemma {:induction false} OwnVehicleGapless(log: seq<Log>, a: AccountId)
    requires OnlyItself(log, a) && LogNumbered(log)
    ensures AfterNaming(log, a) == |Numbers(log, a)| % WRAP
    ensures Gapless(log, a)
  {
    if log != [] {
      hide *;
      var before, last := log[..|log| - 1], log[|log| - 1];
      assert log == before + [last];
      LogNumberedLast(before, last);
      OnlyItselfLast(before, last, a);
      OwnVehicleGapless(before, a);
      AfterNamingOneMore(before, last, a);
      NumbersOneMore(before, last, a);
      GaplessLast(before, last, a);
      IncrementCounts(|Numbers(before, a)|);
    }
  }

  lemma IncrementCounts(n: nat)
    ensures Increment(n % WRAP) == (n + 1) % WRAP
  {
  }

  /** In every run, a driver whose declarations only involve itself has gapless numbers. */
  lemma {:induction false} GaplessForOwnVehicle(sha: Hasher, init: Option<AccountId>, calls: seq<Call>, a: AccountId)
    requires OnlyItself(Run(sha, init, calls).log, a)
    ensures Gapless(Run(sha, init, calls).log, a)
  {
    RunNumbered(sha, init, calls);
    hide Run, Key, Gapless;
    OwnVehicleGapless(Run(sha, init, calls).log, a);
  }

  // ---- Exactly when numbers have no gaps ----

  /**
   Whenever `a` declared, the latest declaration naming `a` as the vehicle was numbered
   just below the declarations `a` had made.
   */
  ghost predicate NamedInTurn(log: seq<Log>, a: AccountId) {
    forall i | 0 <= i < |log| && log[i].Declared? && log[i].driver == a ::
      AfterNaming(log[..i], a) == |Numbers(log[..i], a)| % WRAP
  }

  lemma NamedInTurnLast(before: seq<Log>, last: Log, a: AccountId)
    ensures NamedInTurn(before + [last], a) <==>
            && NamedInTurn(before, a)
            && (last.Declared? && last.driver == a ==>
                  AfterNaming(before, a) == |Numbers(before, a)| % WRAP)
  {
    hide AfterNaming, Numbers;
    var log := before + [last];
    assert log[..|before|] == before && log[|before|] == last;
    assert forall i | 0 <= i < |before| :: log[..i] == before[..i] && log[i] == before[i];
  }

  lemma {:induction false} GaplessLog(log: seq<Log>, a: AccountId)
    requires LogNumbered(log)
    ensures Gapless(log, a) <==> NamedInTurn(log, a)
  {
    if log != [] {
      hide *;
      var before, last := log[..|log| - 1], log[|log| - 1];
      assert log == before + [last];
      LogNumberedLast(before, last);
      GaplessLog(before, a);
      GaplessLast(before, last, a);
      NamedInTurnLast(before, last, a);
    }
  }

  /** In every run, a driver is numbered without gaps exactly if it was named in turn. */
  lemma {:induction false} GaplessExactly(sha: Hasher, init: Option<AccountId>, calls: seq<Call>, a: AccountId)
    ensures Gapless(Run(sha, init, calls).log, a) <==> NamedInTurn(Run(sha, init, calls).log, a)
  {
    RunNumbered(sha, init, calls);
    hide Run, Gapless, NamedInTurn, Key;
    GaplessLog(Run(sha, init, calls).log, a);
  }

  lemma {:induction false} NumbersOnce(log: seq<Log>, a: AccountId)
    requires NumbersDistinct(log)
    ensures forall i, j | 0 <= i < j < |Numbers(log, a)| :: Numbers(log, a)[i] != Numbers(log, a)[j]
  {
    if log != [] {
      var before, last := log[..|log| - 1], log[|log| - 1];
      NumbersOnce(before, a);
      if last.Declared? && last.driver == a {
        NumbersInLog(before, a, last.number);
        assert last.number !in Numbers(before, a);
      }
    }
  }

  lemma NoRepeat(numbers: seq<u32>, j: nat)
    requires 0 < j < |numbers| && numbers[0] == 0 && numbers[j] == j % WRAP
    requires forall i, j | 0 <= i < j < |numbers| :: numbers[i] != numbers[j]
    ensures j != WRAP
  {
    assert numbers[0] != numbers[j];
  }

  /** Gapless numbers are those below their count; there are at most 2^32. */
  lemma {:induction false} GaplessNumbers(log: seq<Log>, a: AccountId, m: u32)
    requires Gapless(log, a) && NumbersDistinct(log)
    ensures |Numbers(log, a)| <= WRAP
    ensures m in Numbers(log, a) <==> m < |Numbers(log, a)|
  {
    NumbersOnce(log, a);
    hide Numbers, NumbersDistinct;
    var numbers := Numbers(log, a);
    if |numbers| > WRAP {
      NoRepeat(numbers, WRAP);
    }
    if m < |numbers| {
      assert numbers[m] == m;
    }
  }

  lemma RunDistinct(sha: Hasher, init: Option<AccountId>, calls: seq<Call>)
    ensures NumbersDistinct(Run(sha, init, calls).log)
  {
    RunNumbered(sha, init, calls);
  }

  lemma CounterFollows(sha: Hasher, init: Option<AccountId>, calls: seq<Call>, a: AccountId)
    ensures NextNumber(Run(sha, init, calls), a) == AfterNaming(Run(sha, init, calls).log, a)
  {
    RunNumbered(sha, init, calls);
  }

  lemma DeclareEffect(sha: Hasher, b: Book, driver: AccountId, v: AccountId, n: u32, sent: bool, rolledBack: bool)
    requires driver in b.subscriptions
    ensures var (b', r) := Declare(sha, b, Signed(driver), v, n, sent, rolledBack);
      if r == Refused(DeclarationAlreadyStored) then b' == b
      else
        && r == (if sent then Done else Refused(ErrorRequestData))
        && b'.log == b.log + if sent || !rolledBack then [Declared(driver, NextNumber(b, driver), v, n)] else []
  {
    hide Key;
  }

  /**
   The next declaration of a driver with `k` gapless ones, by the counter `m` it finds:
   refused exactly if `m < k`, in turn exactly if `m == k`, past a gap exactly if `m > k`.
   It is recorded unless it is refused or a failed request undoes it.
   */
  lemma {:induction false} NextDeclarationExactly(sha: Hasher, init: Option<AccountId>, calls: seq<Call>,
                                                  driver: AccountId, v: AccountId, n: u32,
                                                  sent: bool, rolledBack: bool)
    requires var b := Run(sha, init, calls);
      && driver in b.subscriptions && Gapless(b.log, driver)
      && NoCollision(sha, Pairs(b.log) + {(driver, AfterNaming(b.log, driver))})
    ensures var b := Run(sha, init, calls);
      var k, m := |Numbers(b.log, driver)|, AfterNaming(b.log, driver);
      var (b', r) := Declare(sha, b, Signed(driver), v, n, sent, rolledBack);
      && (r == Refused(DeclarationAlreadyStored) <==> m < k)
      && (m >= k ==> r == if sent then Done else Refused(ErrorRequestData))
      && (b'.log == b.log <==> m < k || (!sent && rolledBack))
      && (Gapless(b'.log, driver) <==> b'.log == b.log || m == k)
  {
    hide *;
    var b := Run(sha, init, calls);
    var m := AfterNaming(b.log, driver);
    RefusedExactly(sha, init, calls, driver, v, n, sent, rolledBack);
    RunDistinct(sha, init, calls);
    GaplessNumbers(b.log, driver, m);
    CounterFollows(sha, init, calls, driver);
    DeclareEffect(sha, b, driver, v, n, sent, rolledBack);
    GaplessLast(b.log, Declared(driver, m, v, n), driver);
  }

  lemma RunOneMore(sha: Hasher, init: Option<AccountId>, calls: seq<Call>, c: Call)
    ensures Run(sha, init, calls + [c]) == Apply(sha, Run(sha, init, calls), c)
  {
  }

  lemma BothSubscribed(a: AccountId, v: AccountId)
    ensures SignUp(SignUp(Open(None), Signed(a)).0, Signed(v)).0 == Open(None).(subscriptions := {a, v})
  {
  }

  /** Numbering is not gapless for every driver: a vehicle that signs up can start at one. */
  lemma FirstNumberCanBeOne(sha: Hasher, a: AccountId, v: AccountId)
    requires a != v && Key(sha, a, 0) != Key(sha, v, 1)
    ensures Numbers(Run(sha, None, [Subscribing(Signed(a)), Subscribing(Signed(v)),
                                    Declaring(Signed(a), v, 1, true, false),
                                    Declaring(Signed(v), v, 1, true, false)]).log, v) == [1]
  {
    hide Key;
    var c1, c2 := Subscribing(Signed(a)), Subscribing(Signed(v));
    var c3, c4 := Declaring(Signed(a), v, 1, true, false), Declaring(Signed(v), v, 1, true, false);
    RunOneMore(sha, None, [], c1);
    RunOneMore(sha, None, [c1], c2);
    RunOneMore(sha, None, [c1, c2], c3);
    RunOneMore(sha, None, [c1, c2, c3], c4);
    assert [] + [c1] == [c1] && [c1] + [c2] == [c1, c2] && [c1, c2] + [c3] == [c1, c2, c3];
    assert [c1, c2, c3] + [c4] == [c1, c2, c3, c4];
    hide Run;
    BothSubscribed(a, v);
    var b2, b3 := Run(sha, None, [c1, c2]), Run(sha, None, [c1, c2, c3]);
    var e1, e2 := Declared(a, 0, v, 1), Declared(v, 1, v, 1);
    assert b3 == Write(sha, b2, a, v, 1) && b3.log == [e1] && NextNumber(b3, v) == 1;
    assert Run(sha, None, [c1, c2, c3, c4]).log == [e1] + [e2];
    hide Apply;
    NumbersOneMore([], e1, v);
    NumbersOneMore([e1], e2, v);
    assert [] + [e1] == [e1];
  }
}

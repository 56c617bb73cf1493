/** The registry of ThreadManager: identifiers, core placement and what registration may answer. */
module ThreadRegistry {
  import opened Foundations

  /** An IThread pointer; zero is the null pointer. */
  type Pointer = nat

  const NULL: Pointer := 0

  type Id = n: int | 0 <= n < 256

  datatype Record = Record(id: Id, thread: Pointer, core: nat)

  datatype Registry = Registry(records: seq<Record>, nextCore: nat)

  /** Whether the caller lets the manager pick the identifier or brings its own. */
  datatype Request = Automatic | Explicit(id: Id)

  datatype Error = InvalidRegistration | LimitExceeded | DuplicateId(id: Id)

  datatype Answer = Added(record: Record) | Present(record: Record) | Failed(error: Error)

  ghost predicate Holds(records: seq<Record>, thread: Pointer) {
    exists i :: 0 <= i < |records| && records[i].thread == thread
  }

  ghost predicate InUse(records: seq<Record>, id: Id) {
    exists i :: 0 <= i < |records| && records[i].id == id
  }

  /** Identifiers and pointers are pairwise distinct and no pointer is null. */
  ghost predicate Distinct(records: seq<Record>) {
    && (forall i :: 0 <= i < |records| ==> records[i].thread != NULL)
    && forall i, j :: 0 <= i < j < |records| ==>
         records[i].id != records[j].id && records[i].thread != records[j].thread
  }

  function Position(records: seq<Record>, thread: Pointer): (at: nat)
    ensures at <= |records|
    ensures at < |records| ==> records[at].thread == thread
    ensures forall i :: 0 <= i < at ==> records[i].thread != thread
  {
    if records == [] || records[0].thread == thread then 0 else 1 + Position(records[1..], thread)
  }

  function PositionOfId(records: seq<Record>, id: Id): (at: nat)
    ensures at <= |records|
    ensures at < |records| ==> records[at].id == id
    ensures forall i :: 0 <= i < at ==> records[i].id != id
  {
    if records == [] || records[0].id == id then 0 else 1 + PositionOfId(records[1..], id)
  }

  function Without(records: seq<Record>, at: nat): seq<Record> {
    if at < |records| then records[..at] + records[at + 1..] else records
  }

  /** The identifier automatic registration must hand out: least free in 1..255, then 0, then none. */
  ghost predicate IsAutomaticId(records: seq<Record>, id: Option<Id>) {
    match id
    case None => forall n: Id :: InUse(records, n)
    case Some(n) =>
      && !InUse(records, n)
      && forall m: Id :: 0 < m && (m < n || n == 0) ==> InUse(records, m)
  }

  lemma AutomaticIdIsUnique(records: seq<Record>, a: Option<Id>, b: Option<Id>)
    requires IsAutomaticId(records, a) && IsAutomaticId(records, b)
    ensures a == b
  {
  }

  /** What a registration answers and leaves behind. */
  ghost predicate Registers(before: Registry, thread: Pointer, request: Request, cores: nat,
                            after: Registry, answer: Answer)
    requires cores > 0
  {
    match answer
    case Present(record) =>
      after == before && thread != NULL && record.thread == thread && record in before.records
    case Failed(error) =>
      && after == before
      && (match error
          case InvalidRegistration => thread == NULL
          case LimitExceeded =>
            && thread != NULL && !Holds(before.records, thread)
            && request == Automatic && IsAutomaticId(before.records, None)
          case DuplicateId(id) =>
            && thread != NULL && !Holds(before.records, thread)
            && request == Explicit(id) && InUse(before.records, id))
    case Added(record) =>
      && thread != NULL && !Holds(before.records, thread)
      && record.thread == thread
      && record.core == before.nextCore % cores
      && (match request
          case Automatic => IsAutomaticId(before.records, Some(record.id))
          case Explicit(id) => record.id == id && !InUse(before.records, id))
      && after.records == before.records + [record]
      && after.nextCore == (record.core + 1) % cores
  }

  /** Over distinct records the answer and the new registry are determined. */
  lemma RegistersIsDeterministic(before: Registry, thread: Pointer, request: Request, cores: nat,
                                 a: Registry, x: Answer, b: Registry, y: Answer)
    requires cores > 0 && Distinct(before.records)
    requires Registers(before, thread, request, cores, a, x) && Registers(before, thread, request, cores, b, y)
    ensures a == b && x == y
  {
    if x.Added? && y.Added? && request == Automatic {
      AutomaticIdIsUnique(before.records, Some(x.record.id), Some(y.record.id));
    } else if request == Automatic && x.Added? && y.Failed? {
      AutomaticIdIsUnique(before.records, Some(x.record.id), None);
    } else if request == Automatic && x.Failed? && y.Added? {
      AutomaticIdIsUnique(before.records, None, Some(y.record.id));
    }
  }

  // ---------------------------------------------------------------- cleanup of claimed records

  /** What cleanup compares when it looks a claimed record up again. */
  function Key(r: Record): (Id, Pointer) {
    (r.id, r.thread)
  }

  /** Erasing the record at one position leaves exactly the others, in order. */
  lemma ErasesOne(records: seq<Record>, at: nat)
    requires Distinct(records) && at < |records|
    ensures var left := Without(records, at);
            && |left| == |records| - 1
            && Distinct(left)
            && forall r :: r in left <==> r in records && r != records[at]
  {
    var left := Without(records, at);
    forall r
      ensures r in left <==> r in records && r != records[at]
    {
      if r in records && r != records[at] {
        var i :| 0 <= i < |records| && records[i] == r;
        assert left[if i < at then i else i - 1] == r;
      }
    }
  }

  lemma LeavesNone(records: seq<Record>, at: nat)
    requires Distinct(records) && at < |records|
    ensures var left := Without(records, at);
            && Distinct(left)
            && !Holds(left, records[at].thread)
            && !InUse(left, records[at].id)
  {
    var left := Without(records, at);
    forall i | 0 <= i < |left|
      ensures left[i].thread != records[at].thread && left[i].id != records[at].id
    {
      assert left[i] == records[if i < at then i else i + 1];
    }
  }

  /** Erasing the first record of a pointer, or of an identifier, erases it for good. */
  lemma ErasedIsGone(records: seq<Record>, thread: Pointer, id: Id)
    requires Distinct(records)
    ensures var left := Without(records, Position(records, thread)); Distinct(left) && !Holds(left, thread)
    ensures var left := Without(records, PositionOfId(records, id)); Distinct(left) && !InUse(left, id)
  {
    var at := Position(records, thread);
    if at < |records| {
      LeavesNone(records, at);
    }
    var of := PositionOfId(records, id);
    if of < |records| {
      LeavesNone(records, of);
    }
  }

  /** The records whose automatic claim would succeed, in registry order. */
  function Claimable(records: seq<Record>, claimable: set<Pointer>): seq<Record> {
    if records == [] then []
    else
      var r := records[|records| - 1];
      Claimable(records[..|records| - 1], claimable) + if r.thread != NULL && r.thread in claimable then [r] else []
  }

  function Keys(records: seq<Record>): set<(Id, Pointer)> {
    set r | r in records :: Key(r)
  }

  /** The records left once those with the given keys are gone, in registry order. */
  function Kept(records: seq<Record>, dropped: set<(Id, Pointer)>): seq<Record> {
    if records == [] then []
    else
      var r := records[|records| - 1];
      Kept(records[..|records| - 1], dropped) + if Key(r) in dropped then [] else [r]
  }

  ghost predicate HasKey(records: seq<Record>, key: (Id, Pointer)) {
    exists r :: r in records && Key(r) == key
  }

  lemma {:induction false} KeptHas(records: seq<Record>, dropped: set<(Id, Pointer)>, r: Record)
    ensures r in Kept(records, dropped) <==> r in records && Key(r) !in dropped
  {
    if records != [] {
      KeptHas(records[..|records| - 1], dropped, r);
    }
  }

  lemma {:induction false} KeptDistinct(records: seq<Record>, dropped: set<(Id, Pointer)>)
    requires Distinct(records)
    ensures Distinct(Kept(records, dropped))
  {
    if records != [] {
      var front, r := records[..|records| - 1], records[|records| - 1];
      KeptDistinct(front, dropped);
      forall c: Record | c in Kept(front, dropped)
        ensures c.id != r.id && c.thread != r.thread
      {
        KeptHas(front, dropped, c);
        var i :| 0 <= i < |front| && front[i] == c;
        assert records[i] == c;
      }
    }
  }

  lemma KeptHasKey(records: seq<Record>, dropped: set<(Id, Pointer)>, key: (Id, Pointer))
    requires key !in dropped
    ensures HasKey(Kept(records, dropped), key) <==> HasKey(records, key)
  {
    forall r: Record
      ensures r in Kept(records, dropped) <==> r in records && Key(r) !in dropped
    {
      KeptHas(records, dropped, r);
    }
  }

  lemma KeptAppend(records: seq<Record>, r: Record, dropped: set<(Id, Pointer)>)
    ensures Kept(records + [r], dropped) == Kept(records, dropped) + if Key(r) in dropped then [] else [r]
  {
    assert (records + [r])[..|records|] == records;
  }

  lemma {:induction false} KeepsAll(records: seq<Record>, dropped: set<(Id, Pointer)>)
    requires forall i :: 0 <= i < |records| ==> Key(records[i]) !in dropped
    ensures Kept(records, dropped) == records
  {
    if records != [] {
      KeepsAll(records[..|records| - 1], dropped);
    }
  }

  /** Erasing the only match is filtering it out. */
  lemma {:induction false} EraseIsKept(records: seq<Record>, at: nat, key: (Id, Pointer))
    requires forall i :: 0 <= i < |records| ==> (Key(records[i]) == key <==> i == at)
    ensures Kept(records, {key}) == Without(records, at)
  {
    if at >= |records| {
      KeepsAll(records, {key});
    } else {
      var front, r := records[..|records| - 1], records[|records| - 1];
      assert records == front + [r];
      KeptAppend(front, r, {key});
      EraseIsKept(front, at, key);
    }
  }

  lemma {:induction false} KeptTwice(records: seq<Record>, a: set<(Id, Pointer)>, b: set<(Id, Pointer)>)
    ensures Kept(Kept(records, a), b) == Kept(records, a + b)
  {
    if records != [] {
      var front, r := records[..|records| - 1], records[|records| - 1];
      KeptTwice(front, a, b);
      if Key(r) in a {
        assert Kept(records, a) == Kept(front, a);
      } else {
        KeptAppend(Kept(front, a), r, b);
      }
    }
  }

  lemma {:induction false} ClaimableHas(records: seq<Record>, claimable: set<Pointer>, r: Record)
    ensures r in Claimable(records, claimable) <==> r in records && r.thread != NULL && r.thread in claimable
    ensures |Claimable(records, claimable)| <= |records|
  {
    if records != [] {
      ClaimableHas(records[..|records| - 1], claimable, r);
    }
  }

  lemma {:induction false} ClaimableDistinct(records: seq<Record>, claimable: set<Pointer>)
    requires Distinct(records)
    ensures Distinct(Claimable(records, claimable))
  {
    if records != [] {
      var front, r := records[..|records| - 1], records[|records| - 1];
      ClaimableDistinct(front, claimable);
      forall c: Record | c in Claimable(front, claimable)
        ensures c.id != r.id && c.thread != r.thread
      {
        ClaimableHas(front, claimable, c);
        var i :| 0 <= i < |front| && front[i] == c;
        assert records[i] == c;
      }
    }
  }

  // ---------------------------------------------------------------- pigeonhole

  ghost function Ids(records: seq<Record>): (ids: set<int>)
    ensures forall x :: x in ids <==> exists i :: 0 <= i < |records| && records[i].id == x
  {
    if records == [] then {} else Ids(records[..|records| - 1]) + {records[|records| - 1].id as int}
  }

  function Upto(n: nat): (s: set<int>)
    ensures forall x :: x in s <==> 0 <= x < n
  {
    if n == 0 then {} else Upto(n - 1) + {n - 1}
  }

  lemma {:induction false} UptoHas(n: nat)
    ensures |Upto(n)| == n
  {
    if n > 0 {
      UptoHas(n - 1);
    }
  }

  lemma {:induction false} DistinctIdsAreCounted(records: seq<Record>)
    requires Distinct(records)
    ensures |Ids(records)| == |records|
  {
    if records != [] {
      var front, last := records[..|records| - 1], records[|records| - 1];
      DistinctIdsAreCounted(front);
      assert last.id !in Ids(front);
    }
  }

  lemma SubsetOfEqualSize(a: set<int>, b: set<int>)
    requires a <= b
    ensures |a| <= |b|
    ensures |a| == |b| ==> a == b
  {
    assert b == a + (b - a);
  }

  lemma IdsBelow(records: seq<Record>, n: nat)
    requires n >= 256
    ensures Ids(records) <= Upto(n)
  {
  }

  lemma IdsFit(records: seq<Record>, n: nat)
    requires Distinct(records) && n == 256
    ensures |records| <= n
    ensures |records| == n <==> Ids(records) == Upto(n)
  {
    DistinctIdsAreCounted(records);
    IdsBelow(records, n);
    UptoHas(n);
    SubsetOfEqualSize(Ids(records), Upto(n));
  }

  lemma AllInUseMeansAllIds(records: seq<Record>, n: nat)
    requires n == 256
    ensures IsAutomaticId(records, None) <==> Upto(n) <= Ids(records)
  {
    if IsAutomaticId(records, None) {
      forall id | id in Upto(n)
        ensures id in Ids(records)
      {
        assert InUse(records, id);
      }
    }
    if Upto(n) <= Ids(records) {
      forall id: Id
        ensures InUse(records, id)
      {
        assert id in Upto(n);
      }
    }
  }

  /** There is no free identifier exactly when 256 records are present. */
  lemma FullIffAllIdsInUse(records: seq<Record>)
    requires Distinct(records)
    ensures |records| <= 256
    ensures IsAutomaticId(records, None) <==> |records| == 256
  {
    var n := 256;
    IdsFit(records, n);
    AllInUseMeansAllIds(records, n);
    IdsBelow(records, n);
  }

  // ---------------------------------------------------------------- whole runs

  datatype Op =
    | Add(thread: Pointer, request: Request, answer: Answer)
    | Remove(thread: Pointer)
    | RemoveById(id: Id)
    | RemoveRecords(claimed: seq<Record>)   // a cleanup pass takes out what it has claimed

  ghost predicate Performs(before: Registry, op: Op, cores: nat, after: Registry)
    requires cores > 0
  {
    match op
    case Add(thread, request, answer) => Registers(before, thread, request, cores, after, answer)
    case Remove(thread) =>
      after == before.(records := Without(before.records, Position(before.records, thread)))
    case RemoveById(id) =>
      after == before.(records := Without(before.records, PositionOfId(before.records, id)))
    case RemoveRecords(claimed) =>
      after == before.(records := Kept(before.records, Keys(claimed)))
  }

  /** A run: states[k] is the registry before the k-th registry operation, from the empty registry on. */
  ghost predicate IsRun(states: seq<Registry>, ops: seq<Op>, cores: nat)
    requires cores > 0
  {
    && |states| == |ops| + 1
    && states[0] == Registry([], 0)
    && forall k :: 0 <= k < |ops| ==> Performs(states[k], ops[k], cores, states[k + 1])
  }

  function Insertions(ops: seq<Op>): nat {
    if ops == [] then 0
    else
      var last := ops[|ops| - 1];
      Insertions(ops[..|ops| - 1]) + if last.Add? && last.answer.Added? then 1 else 0
  }

  lemma OperationKeepsDistinct(before: Registry, op: Op, cores: nat, after: Registry)
    requires cores > 0 && Distinct(before.records) && Performs(before, op, cores, after)
    ensures Distinct(after.records)
  {
    if op.Add? && op.answer.Added? {
      var r, n := after.records, |before.records|;
      forall i | 0 <= i < n
        ensures r[i].id != r[n].id && r[i].thread != r[n].thread
      {
        assert r[i] == before.records[i];
        assert !Holds(before.records, r[n].thread);
        assert !InUse(before.records, r[n].id);
      }
    } else if op.RemoveRecords? {
      KeptDistinct(before.records, Keys(op.claimed));
    }
  }

  lemma NextInRotation(n: nat, cores: nat)
    requires cores > 0
    ensures (n % cores) % cores == n % cores
    ensures ((n % cores) + 1) % cores == (n + 1) % cores
  {
    var r := n % cores;
    NextRemainder(n, cores);
    RemainderIs(r, cores, 0, r);
    if r == cores - 1 {
      RemainderIs(r + 1, cores, 1, 0);
    } else {
      RemainderIs(r + 1, cores, 0, r + 1);
    }
  }

  lemma OperationRotates(before: Registry, op: Op, cores: nat, after: Registry, n: nat)
    requires cores > 0 && Performs(before, op, cores, after) && before.nextCore == n % cores
    ensures after.nextCore == (n + if op.Add? && op.answer.Added? then 1 else 0) % cores
  {
    NextInRotation(n, cores);
  }

  /** In every run identifiers and pointers stay distinct and cores rotate whatever is removed in between. */
  lemma {:induction false} RegistryInvariant(states: seq<Registry>, ops: seq<Op>, cores: nat, k: nat)
    requires cores > 0 && IsRun(states, ops, cores) && k <= |ops|
    ensures Distinct(states[k].records) && |states[k].records| <= 256
    ensures states[k].nextCore == Insertions(ops[..k]) % cores
  {
    if k > 0 {
      RegistryInvariant(states, ops, cores, k - 1);
      assert Performs(states[k - 1], ops[k - 1], cores, states[k - 1 + 1]);
      OperationKeepsDistinct(states[k - 1], ops[k - 1], cores, states[k]);
      assert ops[..k][..k - 1] == ops[..k - 1];
      OperationRotates(states[k - 1], ops[k - 1], cores, states[k], Insertions(ops[..k - 1]));
    }
    FullIffAllIdsInUse(states[k].records);
  }

  /** The k-th thread ever inserted runs on core k mod coreCount. */
  lemma InsertionsRotateCores(states: seq<Registry>, ops: seq<Op>, cores: nat, k: nat)
    requires cores > 0 && IsRun(states, ops, cores) && k < |ops|
    requires ops[k].Add? && ops[k].answer.Added?
    ensures ops[k].answer.record.core == Insertions(ops[..k]) % cores
  {
    RegistryInvariant(states, ops, cores, k);
    assert Performs(states[k], ops[k], cores, states[k + 1]);
    NextInRotation(Insertions(ops[..k]), cores);
  }

  /** The limit error is answered exactly when a new thread asks for an automatic identifier among 256 records. */
  lemma LimitErrorExactly(states: seq<Registry>, ops: seq<Op>, cores: nat, k: nat)
    requires cores > 0 && IsRun(states, ops, cores) && k < |ops| && ops[k].Add?
    ensures ops[k].answer == Failed(LimitExceeded)
            <==> && ops[k].thread != NULL && !Holds(states[k].records, ops[k].thread)
                 && ops[k].request == Automatic && |states[k].records| == 256
  {
    RegistryInvariant(states, ops, cores, k);
    FullIffAllIdsInUse(states[k].records);
    assert Performs(states[k], ops[k], cores, states[k + 1]);
  }

  /** Removing an identifier takes out the only record that carries it and nothing else. */
  lemma RemovalIsExact(before: Registry, id: Id, cores: nat, after: Registry)
    requires cores > 0 && Distinct(before.records) && Performs(before, RemoveById(id), cores, after)
    ensures !InUse(after.records, id)
    ensures forall r :: r in after.records <==> r in before.records && r.id != id
    ensures |after.records| == |before.records| - if InUse(before.records, id) then 1 else 0
  {
    var at, s := PositionOfId(before.records, id), before.records;
    if at < |s| {
      assert InUse(s, id);
      ErasesOne(s, at);
    }
  }
}

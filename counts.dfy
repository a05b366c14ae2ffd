/**
 The semantics of the in-memory backend's shared hash: a map from counter name
 to integer that every test-adapter instance reads and writes at its own name.
 */
module Counts {
  import opened Outcomes

  type Store = map<string, int>

  /** The operations an adapter instance offers (`value` included, which changes nothing). */
  datatype Op = Increment | Decrement | Change(v: int) | Reset | Value | Delete

  /** `r` holds exactly what `m` holds at every key other than `k`. */
  ghost predicate OthersAgree(m: Store, r: Store, k: string) {
    m - {k} == r - {k}
  }

  /** Reading the hash: an absent key reads as nil. */
  function Get(m: Store, k: string): Option<int> {
    if k in m then Some(m[k]) else None
  }

  /** The adapter constructor's `counts[name] ||= 0`. */
  function Init(m: Store, k: string): (r: Store)
    ensures Get(r, k) == Some(Get(m, k).GetOr(0))
    ensures OthersAgree(m, r, k)
  {
    if k in m then m else m[k := 0]
  }

  /** One instance operation on the hash by the adapter named `k`. */
  function Step(m: Store, k: string, op: Op): (r: Result<Store>)
    ensures r.Err? <==> (op.Increment? || op.Decrement?) && k !in m
    ensures r.Err? ==> r.error == NilCount(k)
    ensures r.Ok? ==> OthersAgree(m, r.value, k)
  {
    match op
    case Increment => if k in m then Ok(m[k := m[k] + 1]) else Err(NilCount(k))
    case Decrement => if k in m then Ok(m[k := m[k] - 1]) else Err(NilCount(k))
    case Change(v) => Ok(m[k := v])
    case Reset => Ok(m[k := 0])
    case Value => Ok(m)
    case Delete => Ok(m - {k})
  }

  lemma IncrementAddsOne(m: Store, k: string)
    requires k in m
    ensures Step(m, k, Increment) == Ok(m[k := m[k] + 1])
  {
  }

  /** No lower bound: decrementing 0 gives -1. */
  lemma DecrementSubtractsOne(m: Store, k: string)
    requires k in m
    ensures Step(m, k, Decrement) == Ok(m[k := m[k] - 1])
    ensures m[k] == 0 ==> Get(Step(m, k, Decrement).value, k) == Some(-1)
  {
  }

  lemma ChangeThenValue(m: Store, k: string, v: int)
    ensures Step(m, k, Change(v)).Ok?
    ensures Get(Step(m, k, Change(v)).value, k) == Some(v)
  {
  }

  lemma ResetIsChangeZero(m: Store, k: string)
    ensures Step(m, k, Reset) == Step(m, k, Change(0))
  {
  }

  /** After `delete` the key reads as nil and the arithmetic operations fail. */
  lemma DeleteMakesAbsent(m: Store, k: string)
    ensures Step(m, k, Delete).Ok?
    ensures Get(Step(m, k, Delete).value, k) == None
    ensures Step(Step(m, k, Delete).value, k, Increment) == Err(NilCount(k))
    ensures Step(Step(m, k, Delete).value, k, Decrement) == Err(NilCount(k))
  {
  }

  /** A sequence of operations by one adapter, stopping at the first failure. */
  function Run(m: Store, k: string, ops: seq<Op>): Result<Store>
    decreases |ops|
  {
    if ops == [] then Ok(m)
    else
      var m1 :- Step(m, k, ops[0]);
      Run(m1, k, ops[1..])
  }

  /** The number of increments minus the number of decrements in `ops`. */
  function Net(ops: seq<Op>): int
    decreases |ops|
  {
    if ops == [] then 0
    else
      (match ops[0]
       case Increment => 1
       case Decrement => -1
       case _ => 0) + Net(ops[1..])
  }

  predicate OnlyTicks(ops: seq<Op>) {
    forall i :: 0 <= i < |ops| ==> ops[i].Increment? || ops[i].Decrement?
  }

  lemma {:induction false} RunTicks(m: Store, k: string, ops: seq<Op>)
    requires k in m && OnlyTicks(ops)
    ensures Run(m, k, ops) == Ok(m[k := m[k] + Net(ops)])
  {
    if ops != [] {
      var d := if ops[0].Increment? then 1 else -1;
      var m1 := m[k := m[k] + d];
      assert Step(m, k, ops[0]) == Ok(m1);
      assert OnlyTicks(ops[1..]) by {
        forall i | 0 <= i < |ops[1..]| ensures ops[1..][i].Increment? || ops[1..][i].Decrement? {
          assert ops[1..][i] == ops[i + 1];
        }
      }
      RunTicks(m1, k, ops[1..]);
      assert Run(m, k, ops) == Run(m1, k, ops[1..]);
      assert Net(ops) == d + Net(ops[1..]);
      assert m1[k := m1[k] + Net(ops[1..])] == m[k := m[k] + Net(ops)];
    } else {
      assert m[k := m[k] + 0] == m;
    }
  }

  /** From a fresh entry, increments and decrements leave `#inc - #dec` and touch nothing else. */
  lemma FreshEntryCountsTicks(m: Store, k: string, ops: seq<Op>)
    requires k !in m && OnlyTicks(ops)
    ensures Run(Init(m, k), k, ops) == Ok(m[k := Net(ops)])
  {
    RunTicks(m[k := 0], k, ops);
    assert m[k := 0][k := 0 + Net(ops)] == m[k := Net(ops)];
  }
}

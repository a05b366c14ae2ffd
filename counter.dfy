/**
 The counter handle: a name bound to a configuration. The handle resolves its
 adapter from the configuration on first use, keeps it for its lifetime, and
 passes every operation through to it.
 */
module Counters {
  import opened Outcomes
  import opened Counts
  import opened Configurations
  import opened TestAdapters

  /** Everything a counter operation can read or change: the shared hash and the configuration's two fields. */
  datatype Env = Env(counts: Store, adapter: Option<string>, memo: Option<Kind>)

  /** The effect of one operation on a handle: the new state, whether the handle now holds an adapter, and how it ended. */
  datatype Run = Run(env: Env, resolved: bool, outcome: Result<()>)

  /** The configuration resolves to the in-memory backend. */
  ghost predicate TestBackend(e: Env) {
    e.adapter == Some("test") && (e.memo.None? || e.memo == Some(Test))
  }

  /**
   One operation on the handle named `name`. A handle that holds no adapter yet
   asks the configuration for the adapter class (memoising it there), builds the
   adapter (which puts 0 at a missing name) and keeps it.
   */
  function CounterRun(e: Env, name: string, resolved: bool, op: Op): (r: Run)
    ensures OthersAgree(e.counts, r.env.counts, name)
    ensures r.env.adapter == e.adapter
    ensures resolved ==> r.resolved && r.env.memo == e.memo
    ensures r.outcome.Err? ==> r.env.counts == e.counts
    ensures r.outcome.Ok? ==> r.resolved
    ensures !resolved ==> (r.resolved <==> Resolve(e.adapter, e.memo) == Ok(Test))
    ensures !resolved && r.resolved ==> r.outcome.Ok? && r.env.memo == Some(Test)
  {
    if resolved then
      match Step(e.counts, name, op)
      case Ok(m) => Run(e.(counts := m), true, Ok(()))
      case Err(err) => Run(e, true, Err(err))
    else
      match Resolve(e.adapter, e.memo)
      case Err(err) => Run(e, false, Err(err))
      case Ok(Redis) => Run(e.(memo := Some(Redis)), false, Err(RedisNotModelled))
      case Ok(Test) =>
        var m := Init(e.counts, name);
        Run(Env(Step(m, name, op).value, e.adapter, Some(Test)), true, Ok(()))
  }

  /** What `value` returns after a run: the stored entry, or the error. */
  function ReadAfter(run: Run, name: string): Result<Option<int>> {
    if run.outcome.Ok? then Ok(Get(run.env.counts, name)) else Err(run.outcome.error)
  }

  lemma TestBackendResolvesTest(e: Env)
    requires TestBackend(e)
    ensures Resolve(e.adapter, e.memo) == Ok(Test)
  {
  }

  /** On a fresh counter, `increment` then `value` gives 1. */
  lemma FreshIncrementReadsOne(e: Env, name: string)
    requires TestBackend(e) && name !in e.counts
    ensures var r1 := CounterRun(e, name, false, Increment);
            ReadAfter(CounterRun(r1.env, name, r1.resolved, Value), name) == Ok(Some(1))
  {
  }

  /** From a stored 2, `decrement` gives 1 and `reset` gives 0; `value` returns the stored 2. */
  lemma FromTwo(e: Env, name: string)
    requires TestBackend(e) && name in e.counts && e.counts[name] == 2
    ensures ReadAfter(CounterRun(e, name, false, Decrement), name) == Ok(Some(1))
    ensures ReadAfter(CounterRun(e, name, false, Reset), name) == Ok(Some(0))
    ensures ReadAfter(CounterRun(e, name, false, Value), name) == Ok(Some(2))
  {
  }

  /** `change(v)` then `value` gives `v`, whatever the entry held before. */
  lemma ChangeThenValue(e: Env, name: string, resolved: bool, v: int)
    requires TestBackend(e) || resolved
    ensures var r1 := CounterRun(e, name, resolved, Change(v));
            ReadAfter(CounterRun(r1.env, name, r1.resolved, Value), name) == Ok(Some(v))
  {
  }

  /**
   A handle that already holds its adapter no longer consults the configuration:
   its effect on the hash is the same whatever the configuration now says.
   */
  lemma ResolvedHandleIgnoresConfiguration(e: Env, e2: Env, name: string, op: Op)
    requires e.counts == e2.counts
    ensures CounterRun(e, name, true, op).env.counts == CounterRun(e2, name, true, op).env.counts
    ensures CounterRun(e, name, true, op).outcome == CounterRun(e2, name, true, op).outcome
  {
  }

  /** A handle whose entry was deleted keeps its adapter, so a later increment fails on the missing entry. */
  lemma IncrementAfterDeleteFails(e: Env, name: string)
    requires TestBackend(e)
    ensures var r1 := CounterRun(e, name, false, Delete);
            r1.resolved && CounterRun(r1.env, name, r1.resolved, Increment).outcome == Err(NilCount(name))
  {
  }

  class Counter {
    const name: string
    const config: Configuration
    const store: CountStore
    /** The memoised adapter; `null` until the first operation resolves it. */
    var adapter: TestAdapter?

    ghost predicate Valid()
      reads this
    {
      adapter != null ==> adapter.name == name && adapter.store == store
    }

    ghost function Snapshot(): Env
      reads store, config
    {
      Env(store.counts, config.adapter, config.adapterClass)
    }

    /** A handle with no configuration of its own uses the global one. */
    constructor (name: string, config: Configuration?, global: Configuration, store: CountStore)
      ensures this.name == name && this.store == store
      ensures this.config == if config == null then global else config
      ensures adapter == null && Valid()
    {
      this.name := name;
      this.config := if config == null then global else config;
      this.store := store;
      adapter := null;
    }

    /** `increment`, `decrement`, `change`, `reset`, `value` and `delete`, selected by `op`. */
    method Perform(op: Op) returns (r: Result<()>)
      requires Valid()
      modifies this, config, store
      ensures Valid()
      ensures var run := CounterRun(old(Snapshot()), name, old(adapter) != null, op);
              Snapshot() == run.env && r == run.outcome && (adapter != null) == run.resolved
      ensures old(adapter) != null ==> adapter == old(adapter)
    {
      if adapter == null {
        var k := config.AdapterClass();
        if k.Err? {
          return Err(k.error);
        }
        if k.value == Redis {
          return Err(RedisNotModelled);
        }
        adapter := new TestAdapter(name, store);
      }
      r := adapter.Perform(op);
    }

    method Value() returns (r: Result<Option<int>>)
      requires Valid()
      modifies this, config, store
      ensures Valid()
      ensures var run := CounterRun(old(Snapshot()), name, old(adapter) != null, Op.Value);
              Snapshot() == run.env && r == ReadAfter(run, name) && (adapter != null) == run.resolved
      ensures old(adapter) != null ==> adapter == old(adapter)
    {
      var x := Perform(Op.Value);
      if x.Err? {
        return Err(x.error);
      }
      var v := adapter.Value();
      r := Ok(v);
    }
  }
}

/**
 The in-memory backend: one hash shared by every adapter instance (the class
 variable), and adapter instances that each read and write their own name in it.
 */
module TestAdapters {
  import opened Outcomes
  import opened Counts

  /** The class-level hash of counts that all test adapters share. */
  class CountStore {
    var counts: Store

    constructor ()
      ensures counts == map[]
    {
      counts := map[];
    }

    /** The class-level `reset`: forget every counter. */
    method Reset()
      modifies this
      ensures counts == map[]
    {
      counts := map[];
    }
  }

  class TestAdapter {
    const name: string
    const store: CountStore

    /** Creating an adapter makes its entry 0 unless the hash already holds one. */
    constructor (name: string, store: CountStore)
      modifies store
      ensures this.name == name && this.store == store
      ensures store.counts == Init(old(store.counts), name)
    {
      this.name := name;
      this.store := store;
      store.counts := Init(store.counts, name);
    }

    method Increment() returns (r: Result<()>)
      modifies store
      ensures r == if name in old(store.counts) then Ok(()) else Err(NilCount(name))
      ensures r.Err? ==> store.counts == old(store.counts)
      ensures r.Ok? ==> Ok(store.counts) == Step(old(store.counts), name, Op.Increment)
    {
      if name in store.counts {
        store.counts := store.counts[name := store.counts[name] + 1];
        r := Ok(());
      } else {
        r := Err(NilCount(name));
      }
    }

    method Decrement() returns (r: Result<()>)
      modifies store
      ensures r == if name in old(store.counts) then Ok(()) else Err(NilCount(name))
      ensures r.Err? ==> store.counts == old(store.counts)
      ensures r.Ok? ==> Ok(store.counts) == Step(old(store.counts), name, Op.Decrement)
    {
      if name in store.counts {
        store.counts := store.counts[name := store.counts[name] - 1];
        r := Ok(());
      } else {
        r := Err(NilCount(name));
      }
    }

    method Change(v: int)
      modifies store
      ensures Ok(store.counts) == Step(old(store.counts), name, Op.Change(v))
    {
      store.counts := store.counts[name := v];
    }

    method Reset()
      modifies store
      ensures Ok(store.counts) == Step(old(store.counts), name, Op.Reset)
    {
      store.counts := store.counts[name := 0];
    }

    method Value() returns (v: Option<int>)
      ensures v == Get(store.counts, name)
    {
      v := if name in store.counts then Some(store.counts[name]) else None;
    }

    method Delete()
      modifies store
      ensures Ok(store.counts) == Step(old(store.counts), name, Op.Delete)
    {
      store.counts := store.counts - {name};
    }

    /** Any of the six operations, as the counter handle dispatches them. */
    method Perform(op: Op) returns (r: Result<()>)
      modifies store
      ensures r == if Step(old(store.counts), name, op).Ok? then Ok(()) else Err(NilCount(name))
      ensures r.Ok? ==> Ok(store.counts) == Step(old(store.counts), name, op)
      ensures r.Err? ==> store.counts == old(store.counts)
    {
      match op
      case Increment => r := Increment();
      case Decrement => r := Decrement();
      case Change(v) => Change(v); r := Ok(());
      case Reset => Reset(); r := Ok(());
      case Value => var _ := Value(); r := Ok(());
      case Delete => Delete(); r := Ok(());
    }
  }
}

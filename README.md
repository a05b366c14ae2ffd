# fancy-count, modelled in Dafny

fancy-count keeps counter caches for ActiveRecord models outside the database. In production the backend is Redis; in tests it is an in-memory hash.

This project models the following parts of the library:

- **Backend selection.** A fixed table of adapter names, a validated setter, and a memoised adapter-class lookup (`Configuration`).
- **The counter handle.** It resolves its adapter the first time it is used, keeps it, and forwards `increment`, `decrement`, `change`, `reset`, `value` and `delete` to it (`Counter`).
- **The base adapter.** It delegates every operation to an inner counter object (`Adapter`).
- **The in-memory backend.** One class-level hash is shared by every adapter instance (`TestAdapter`).
- **The parent side** (`HasCountable`):
  - a per-type registry of counters;
  - the key `"<id>_<underscored type>_<counter name>"`;
  - the counter and count accessors, with an optional lazy recompute of an absent counter;
  - instance and scoped reconciliation from a registered logic method;
  - deletion of a record's counters when it is destroyed or, for a type with discard, discarded.
- **The child side** (`CounterCacheable`):
  - a per-type registry of caches;
  - create, destroy, discard and undiscard hooks that move the parent's counter;
  - instance and scoped reconciliation from the size of the parent's child collection.

## Modelling conventions

- **Errors.** Every `raise` in the modelled code, and every Ruby error the code runs into (such as `nil + 1` or `send(nil)`), is one constructor of `Outcomes.Error`. Operations return `Result`.
- **Pure state.** `Counters.Env` is the shared hash plus the configuration's two fields. Each operation is a pure function over `Env`.
- **Classes.** Each class with mutable state matches a Ruby class or hash. Its methods carry contracts that tie the new state to those functions: `Snapshot() == ...`.
- **Records.** A parent is a `Record(typeName, id)`, its id `None` while the record is unsaved. Two unsaved records of one type are the same value here, just as they share one counter key in the library. A child row is a `Child` with its type, its id, the parent each `belongs_to` association leads to, and a discarded flag.
- **Inflections and instance methods.** `singularize` and `underscore` are left uninterpreted, as function-valued fields of `Inflector`. The record methods that `reconcile_logic` names are one function `send(record, methodName)`.
- **Callbacks.** An ActiveRecord callback is an explicit method (`DestroyParent`, `CreateChild`, ...). `define_method` is an entry in an accessor map. `respond_to?` is membership in a capability set.
- **The parent's collection.** The parent's `has_many` named after the cache is the set of children of that type whose association leads to the parent.
- **Integers.** Ruby integers are unbounded, and so are Dafny's `int`. No wrap-around is involved.

## Model

| member | source | states |
|---|---|---|
| Counts.Init | lib/fancy_count/test_adapter.rb:19-23 | creating an adapter leaves its entry at the stored value, or at 0 when the hash held none; every other entry is unchanged |
| Counts.Step | lib/fancy_count/test_adapter.rb:25-47 | an operation fails exactly when `increment`/`decrement` hits a missing entry (`nil + 1`), with that key; a successful one touches the adapter's own entry only |
| Counts.IncrementAddsOne | lib/fancy_count/test_adapter.rb:25-27 | `increment` adds 1 to a present entry |
| Counts.DecrementSubtractsOne | lib/fancy_count/test_adapter.rb:29-31 | `decrement` subtracts 1, with no lower bound: 0 becomes -1 |
| Counts.ChangeThenValue | lib/fancy_count/test_adapter.rb:33-43 | `change(v)` always succeeds and `value` then reads `v` |
| Counts.ResetIsChangeZero | lib/fancy_count/test_adapter.rb:33-39 | `reset` has the same effect as `change(0)` |
| Counts.DeleteMakesAbsent | lib/fancy_count/test_adapter.rb:25-47 | after `delete`, `value` is nil and `increment`/`decrement` fail on the missing entry |
| Counts.RunTicks | lib/fancy_count/test_adapter.rb:25-31 | any sequence of increments and decrements on a present entry succeeds and adds its net count to that entry alone |
| Counts.Run | lib/fancy_count/test_adapter.rb:25-47 | the operations of one adapter applied in order to the hash, stopping at the first failure with its error |
| Counts.FreshEntryCountsTicks | lib/fancy_count/test_adapter.rb:19-31 | on a fresh adapter, the entry ends at the number of increments minus decrements |
| TestAdapters.CountStore.constructor | lib/fancy_count/test_adapter.rb:5 | the class-level hash starts empty |
| TestAdapters.CountStore.Reset | lib/fancy_count/test_adapter.rb:7-9 | the class-level `reset` empties the hash |
| TestAdapters.TestAdapter.constructor | lib/fancy_count/test_adapter.rb:19-23 | the new hash is `Init` of the old one at the adapter's name |
| TestAdapters.TestAdapter.Increment | lib/fancy_count/test_adapter.rb:25-27 | succeeds iff the entry exists, then the hash is `Step(.., Increment)`; on failure the hash is unchanged |
| TestAdapters.TestAdapter.Decrement | lib/fancy_count/test_adapter.rb:29-31 | the same for `Decrement` |
| TestAdapters.TestAdapter.Change | lib/fancy_count/test_adapter.rb:33-35 | the new hash is `Step(.., Change(v))` |
| TestAdapters.TestAdapter.Reset | lib/fancy_count/test_adapter.rb:37-39 | the new hash is `Step(.., Reset)` |
| TestAdapters.TestAdapter.Value | lib/fancy_count/test_adapter.rb:41-43 | returns the entry at the adapter's name, nil when absent |
| TestAdapters.TestAdapter.Delete | lib/fancy_count/test_adapter.rb:45-47 | the new hash is `Step(.., Delete)` |
| TestAdapters.TestAdapter.Perform | lib/fancy_count/test_adapter.rb:25-47 | each operation fails iff `Step` fails, with `NilCount`; otherwise the hash becomes `Step`'s result |
| Adapters.Forward | lib/fancy_count/adapter.rb:10-32 | `change` and `reset` both become an assignment (`value=`), `reset` assigning 0; the other operations map to their own messages |
| Adapters.ResetForwardsAsChangeZero | lib/fancy_count/adapter.rb:18-24 | `reset` sends the same message as `change(0)` |
| Adapters.InnerCounter.constructor | lib/fancy_count/adapter.rb:36-38 | the object a subclass's `counter` returns starts with no messages received and holds a current value |
| Adapters.InnerCounter.Receive | lib/fancy_count/adapter.rb:36-38 | a message sent to that object is recorded after the earlier ones, and it answers its current value, which stays unchanged |
| Adapters.ForwardDistinguishes | lib/fancy_count/adapter.rb:10-32 | two operations send the same message only if they are equal or are `reset` and `change(0)` |
| Adapters.Adapter.constructor | lib/fancy_count/adapter.rb:5-8 | an adapter keeps the name it was built with; the counter object it talks to stands for the subclass's `counter` |
| Adapters.Adapter.Perform | lib/fancy_count/adapter.rb:10-38 | the base class raises "Not yet implemented"; otherwise exactly one message goes to the inner counter, and `value` returns what it reports |
| Adapters.Adapter.Increment | lib/fancy_count/adapter.rb:10-12 | sends `increment` to the inner counter |
| Adapters.Adapter.Decrement | lib/fancy_count/adapter.rb:14-16 | sends `decrement` |
| Adapters.Adapter.Change | lib/fancy_count/adapter.rb:18-20 | sends `value = v` |
| Adapters.Adapter.Reset | lib/fancy_count/adapter.rb:22-24 | sends `value = 0` |
| Adapters.Adapter.Value | lib/fancy_count/adapter.rb:26-28 | sends `value` and returns the inner counter's value |
| Adapters.Adapter.Delete | lib/fancy_count/adapter.rb:30-32 | sends `delete` |
| Configurations.LookupClass | lib/fancy_count/configuration.rb:11-14 | a name has an adapter class iff it is a key of the table; `redis` and `test` map to their classes |
| Configurations.ValidNamesAreExactlyRedisAndTest | lib/fancy_count/configuration.rb:11-14 | the valid names are exactly `redis` and `test` |
| Configurations.JoinOfTable | lib/fancy_count/configuration.rb:31 | the list of valid names in the message is `redis, test` |
| Configurations.MissingAdapterWords | lib/fancy_count/configuration.rb:31 | the `%W[...]` literal as written: eight words, the fourth being the name followed by a comma, the last being the joined valid names |
| Configurations.NextMemo | lib/fancy_count/configuration.rb:25 | the memo after one `||=` lookup: the class found, or the old memo when the lookup failed |
| Configurations.MissingAdapterMessage | lib/fancy_count/configuration.rb:30-33 | the intended message contains the rejected name at its place and ends with the valid names |
| Configurations.MissingAdapterWordsIsNotASentence | lib/fancy_count/configuration.rb:31 | the message literal is eight separate words, the fourth being the name with a comma, and not the sentence |
| Configurations.Resolve | lib/fancy_count/configuration.rb:24-26 | a memoised class wins; with no memo, a missing name fails (`nil.to_sym`), and a name resolves iff it is in the table |
| Configurations.MemoSurvivesReassignment | lib/fancy_count/configuration.rb:24-26 | once a lookup succeeds, later changes of the adapter name do not change the class |
| Configurations.Configuration.constructor | lib/fancy_count/configuration.rb:9 | a configuration starts with its adapter name and no memoised class |
| Configurations.Configuration.SetAdapter | lib/fancy_count/configuration.rb:16-22 | a name is stored iff it is a table key; otherwise the old name stays and a `MissingAdapter` error is raised |
| Configurations.Configuration.AdapterClass | lib/fancy_count/configuration.rb:24-26 | returns `Resolve` of the current name and memo, and memoises the class it found |
| Counters.CounterRun | lib/fancy_count/counter.rb:10-38 | only the handle's own entry changes. A resolved handle ignores the configuration. An unresolved handle obtains an adapter iff the configuration resolves to the in-memory backend, and then the memo holds it. A failed operation leaves the hash unchanged |
| Counters.TestBackendResolvesTest | lib/fancy_count/configuration.rb:24-26 | a configuration naming `test` resolves to the in-memory adapter |
| Counters.FreshIncrementReadsOne | lib/fancy_count/counter.rb:10-28 | on a fresh counter, `increment` then `value` gives 1 |
| Counters.FromTwo | lib/fancy_count/counter.rb:14-28 | from 2, `decrement` gives 1, `reset` gives 0 and `value` gives 2 |
| Counters.ChangeThenValue | lib/fancy_count/counter.rb:18-28 | `change(v)` then `value` gives `v` |
| Counters.ResolvedHandleIgnoresConfiguration | lib/fancy_count/counter.rb:36-38 | a handle holding its adapter has the same effect whatever the configuration now says |
| Counters.IncrementAfterDeleteFails | lib/fancy_count/counter.rb:10-38 | after `delete` the handle keeps its adapter, so `increment` fails on the missing entry |
| Counters.Counter.constructor | lib/fancy_count/counter.rb:5-8 | a handle with no configuration of its own uses the global one |
| Counters.Counter.Perform | lib/fancy_count/counter.rb:10-38 | the new hash, memo and adapter slot are exactly `CounterRun`'s; an adapter once held is kept |
| Counters.Counter.Value | lib/fancy_count/counter.rb:26-28 | returns the stored entry after `CounterRun(.., Value)` |
| HasCountable.CounterMethodName | fancy_count/lib/fancy_count/has_countable.rb:60 | the accessor name is `fancy_` + singular + `_counter` |
| HasCountable.CountMethodName | fancy_count/lib/fancy_count/has_countable.rb:61 | the count accessor name is `fancy_` + singular + `_count` |
| HasCountable.AccessorNamesDiffer | fancy_count/lib/fancy_count/has_countable.rb:60-61 | a counter accessor's name is never a count accessor's name |
| HasCountable.IdString | fancy_count/lib/fancy_count/has_countable.rb:75 | an id's decimal text is non-empty and made of digits |
| HasCountable.IdStringInjective | fancy_count/lib/fancy_count/has_countable.rb:75 | different ids have different decimal texts |
| HasCountable.IdText | fancy_count/lib/fancy_count/has_countable.rb:75 | the interpolated id is empty exactly for an unsaved record (nil id), and otherwise all digits |
| HasCountable.IdTextInjective | fancy_count/lib/fancy_count/has_countable.rb:75 | different ids, nil included, interpolate to different texts |
| HasCountable.FirstUnderscoreAfterDigits | fancy_count/lib/fancy_count/has_countable.rb:75 | in a key, the first `_` is the one that ends the id |
| HasCountable.KeyDeterminesId | fancy_count/lib/fancy_count/has_countable.rb:75 | two equal keys belong to records with the same id |
| HasCountable.KeyDeterminesUnderscoredType | fancy_count/lib/fancy_count/has_countable.rb:75 | with the same id and counter, equal keys mean equal underscored types |
| HasCountable.KeysDiffer | fancy_count/lib/fancy_count/has_countable.rb:75 | distinct records that the inflection tells apart never share a counter key |
| HasCountable.UnsavedRecordKey | fancy_count/lib/fancy_count/has_countable.rb:75 | an unsaved record's key is `"_<underscored type>_<counter>"`, the same for every unsaved record of the type, and differs from the key the record gets once saved |
| HasCountable.ReadStored | fancy_count/lib/fancy_count/has_countable.rb:105-114 | reading succeeds iff the configured adapter is `test`, and then gives the stored entry; an unknown adapter raises |
| HasCountable.CounterKey | fancy_count/lib/fancy_count/has_countable.rb:75 | the key is the interpolated id, `_`, the underscored type name, `_`, then the counter accessor's name |
| HasCountable.LazyValue | fancy_count/lib/fancy_count/has_countable.rb:70-72 | an accessor that recomputes lazily yields its logic method's value for the record (line 80); any other accessor yields none |
| HasCountable.OpenAt | fancy_count/lib/fancy_count/has_countable.rb:76-84 | the accessor at a key: the stored value is read as `fancy_counter_value` reads it, raising as it does; a lazy accessor finding no value changes the counter to the lazy value through a fresh handle; otherwise nothing changes |
| HasCountable.Open | fancy_count/lib/fancy_count/has_countable.rb:74-85 | a record with no accessor of that name raises `NoCounterMethod`; otherwise `OpenAt` at the record's key with the accessor's lazy value |
| HasCountable.CounterOp | fancy_count/lib/fancy_count/has_countable.rb:74-89 | the accessor, then one operation on the handle it returned, at the same key; an error of the accessor ends it |
| HasCountable.TestOpened | fancy_count/lib/fancy_count/has_countable.rb:76-82 | the in-memory hash as the accessor leaves it: the lazy value stored at an absent key when there is one, else 0 put at an absent key (`||= 0`) |
| HasCountable.CounterOpOnTestBackend | fancy_count/lib/fancy_count/has_countable.rb:74-89 | on the in-memory backend every accessor operation succeeds, memoises the adapter, and acts on the hash as the accessor left it |
| HasCountable.UntouchedCounterReadsZero | fancy_count/lib/fancy_count/has_countable.rb:74-89 | without lazy recompute, an untouched counter reads 0 |
| HasCountable.LazyRecomputeOnce | fancy_count/lib/fancy_count/has_countable.rb:70-85 | with lazy recompute, an absent counter reads and stores the logic's value; the next access finds it present and changes nothing |
| HasCountable.StoredCounterKeepsValue | fancy_count/lib/fancy_count/has_countable.rb:74-89 | a stored counter reads its stored value and the hash is unchanged, lazy or not |
| HasCountable.FindCounter | fancy_count/lib/fancy_count/has_countable.rb:118 | `detect` finds nothing iff no entry has the name, else the first entry with the name: every earlier entry has another name |
| HasCountable.LogicAsWritten | fancy_count/lib/fancy_count/has_countable.rb:120-122 | the check as written: only an entry lacking the `reconcile_logic` key raises `MissingLogic`; an entry holding nil there fails in `send(nil)` |
| HasCountable.ReconcileOne | fancy_count/lib/fancy_count/has_countable.rb:116-124 | instance reconcile: an unregistered name raises `UnknownCounter` with the count method's name; an entry without logic raises `MissingLogic`; otherwise the counter is changed to the logic's value through the accessor |
| HasCountable.Logic | fancy_count/lib/fancy_count/has_countable.rb:120-122 | the intended check: an entry without logic raises `MissingLogicError`, otherwise it yields the logic method |
| HasCountable.MissingLogicUnreachableAsWritten | fancy_count/lib/fancy_count/has_countable.rb:64-122 | for registered entries the as-written check never raises `MissingLogicError`; without logic it fails in `send(nil)` instead |
| HasCountable.ReconcileUnknownRaises | fancy_count/lib/fancy_count/has_countable.rb:116-119 | reconciling an unregistered name raises `UnknownCounterError` and changes nothing |
| HasCountable.ReconcileOverwrites | fancy_count/lib/fancy_count/has_countable.rb:116-124 | reconcile sets the counter to the logic's value, whatever it held, and touches no other key |
| HasCountable.ReconcileEach | fancy_count/lib/fancy_count/has_countable.rb:54-57 | class reconcile: the records of the type with the ids in scope, reconciled one after another, stopping at the first error |
| HasCountable.ScopedReconcile | fancy_count/lib/fancy_count/has_countable.rb:54-57 | scoped reconcile succeeds, every record in scope ends at its logic's value, and every counter of a record whose id is outside the scope is unchanged |
| HasCountable.ScopedReconcileLeavesOtherTypes | fancy_count/lib/fancy_count/has_countable.rb:54-57 | scoped reconcile of one type leaves the same-named counter of every record of another type that the inflection tells apart unchanged, whatever its id |
| HasCountable.CounterNamesCanShareKeys | fancy_count/lib/fancy_count/has_countable.rb:75 | keys of different counter names can coincide: when one type underscores to another's underscored name plus `_x`, its counter `c` and the other's counter `x_c` share a key, for any id (with identity inflections, `User`'s `fancy_post_fancy_tag_counter` and `User_fancy_post`'s `fancy_tag_counter`) |
| HasCountable.DeleteCounters | fancy_count/lib/fancy_count/has_countable.rb:91-101 | the deletion hooks: a `delete` through each registered accessor in registration order, stopping at the first error |
| HasCountable.DeletionRemovesCounters | fancy_count/lib/fancy_count/has_countable.rb:91-101 | the deletion hooks remove exactly the keys of the record's registered counters |
| HasCountable.Countable.constructor | fancy_count/lib/fancy_count/has_countable.rb:48-50 | the registries start empty |
| HasCountable.Countable.SaveParent | fancy_count/lib/fancy_count/has_countable.rb:55 | saving a parent row appends it, with its id, to the rows `all` ranges over |
| HasCountable.Countable.FancyCounter | fancy_count/lib/fancy_count/has_countable.rb:59-102 | the entry is always appended. `reconcile_on_missing` without logic raises and defines nothing. Otherwise the accessor is defined, lazy iff both options are set, and the deletion hook is registered |
| HasCountable.Countable.CounterFor | fancy_count/lib/fancy_count/has_countable.rb:74-85 | the store and configuration end as `Open` says; the handle returned is bound to the record's key and the global configuration |
| HasCountable.Countable.Apply | fancy_count/lib/fancy_count/has_countable.rb:74-85 | an operation through the accessor has exactly `CounterOp`'s effect |
| HasCountable.Countable.Count | fancy_count/lib/fancy_count/has_countable.rb:87-89 | the count accessor returns the counter accessor's value |
| HasCountable.Countable.Reconcile | fancy_count/lib/fancy_count/has_countable.rb:116-124 | has exactly `ReconcileOne`'s effect |
| HasCountable.Countable.IdsOf | fancy_count/lib/fancy_count/has_countable.rb:55 | the default scope holds exactly the ids of the type's rows |
| HasCountable.Countable.ReconcileAll | fancy_count/lib/fancy_count/has_countable.rb:54-57 | has exactly `ReconcileEach`'s effect over the scope, all rows of the type by default |
| HasCountable.Countable.ReconcileIds | fancy_count/lib/fancy_count/has_countable.rb:56 | the loop over the ids has `ReconcileEach`'s effect |
| HasCountable.Countable.ReconcileNext | fancy_count/lib/fancy_count/has_countable.rb:56 | one record of the loop, and the rest of the fold after it |
| HasCountable.Countable.RunDeletionHooks | fancy_count/lib/fancy_count/has_countable.rb:91-101 | the hooks have exactly `DeleteCounters`' effect |
| HasCountable.Countable.DestroyParent | fancy_count/lib/fancy_count/has_countable.rb:96-101 | a type with discard has no destroy hook and keeps its counters; otherwise the counters are deleted; the row goes on success |
| HasCountable.Countable.DiscardParent | fancy_count/lib/fancy_count/has_countable.rb:91-95 | only a type with discard can discard, and doing so deletes the counters |
| CounterCacheable.ActiveCount | fancy_count/lib/fancy_count/counter_cacheable.rb:92-100 | the size of the parent's child collection: the children of the type whose association leads to the parent, kept ones only when filtered |
| CounterCacheable.CountAppend | fancy_count/lib/fancy_count/counter_cacheable.rb:92-100 | adding a row adds its own contribution to the child count |
| CounterCacheable.CountUpdate | fancy_count/lib/fancy_count/counter_cacheable.rb:92-100 | replacing a row swaps its contribution |
| CounterCacheable.CountRemove | fancy_count/lib/fancy_count/counter_cacheable.rb:92-100 | removing a row subtracts its contribution |
| CounterCacheable.HookRun | fancy_count/lib/fancy_count/counter_cacheable.rb:41-42 | one hook: a child with no such association raises `NoAssociation`; otherwise one operation through the parent's counter accessor |
| CounterCacheable.HooksEffect | fancy_count/lib/fancy_count/counter_cacheable.rb:40-60 | the hooks of every registered cache in registration order, stopping at the first error |
| CounterCacheable.Create | fancy_count/lib/fancy_count/counter_cacheable.rb:40-43 | `after_create`: the hooks increment; the row exists iff they all succeed |
| CounterCacheable.Destroy | fancy_count/lib/fancy_count/counter_cacheable.rb:55-60 | `destroy`: a type with discard has no hook and the row goes; otherwise the hooks decrement and the row goes iff they succeed |
| CounterCacheable.Discard | fancy_count/lib/fancy_count/counter_cacheable.rb:45-49 | `discard`: a type without discard raises `NoDiscard`; a discarded row is left alone; otherwise the row is saved as discarded and the hooks decrement |
| CounterCacheable.Undiscard | fancy_count/lib/fancy_count/counter_cacheable.rb:51-54 | `undiscard`: the mirror of `Discard`: the row is saved as kept and the hooks increment |
| CounterCacheable.HookFrame | fancy_count/lib/fancy_count/counter_cacheable.rb:40-60 | a hook writes only the counter key of the parent its association leads to; with no such association it raises and writes nothing |
| CounterCacheable.HookShift | fancy_count/lib/fancy_count/counter_cacheable.rb:40-60 | a hook moves the parent's counter by ±1 exactly when the child belongs to it, and changes nothing when it fails |
| CounterCacheable.CreatePreservesSync | fancy_count/lib/fancy_count/counter_cacheable.rb:40-43 | creating a kept child keeps counter = active children |
| CounterCacheable.DiscardKeptPreservesSync | fancy_count/lib/fancy_count/counter_cacheable.rb:45-49 | discard keeps counter = active children |
| CounterCacheable.UndiscardPreservesSync | fancy_count/lib/fancy_count/counter_cacheable.rb:51-54 | undiscard keeps counter = active children |
| CounterCacheable.DestroyPreservesSync | fancy_count/lib/fancy_count/counter_cacheable.rb:55-60 | for a type without discard, destroy keeps counter = active children |
| CounterCacheable.DestroyDiscardableLeavesCounter | fancy_count/lib/fancy_count/counter_cacheable.rb:45-60 | for a type with discard, destroy leaves the counter untouched, one too high when the child was kept |
| CounterCacheable.FindCache | fancy_count/lib/fancy_count/counter_cacheable.rb:84 | `detect` finds nothing iff no cache has the name, else the first cache with the name: every earlier cache has another name |
| CounterCacheable.ReconcileWith | fancy_count/lib/fancy_count/counter_cacheable.rb:83-100 | instance reconcile: an unknown name raises, a missing association raises `NoAssociation`; otherwise the parent's counter is changed to its child count, kept children only as the filter flag says |
| CounterCacheable.ReconcileChildAsWritten | fancy_count/lib/fancy_count/counter_cacheable.rb:92-100 | reconcile with the kept filter chosen by whether the parent record responds to `kept` (line 95) |
| CounterCacheable.ReconcileChild | fancy_count/lib/fancy_count/counter_cacheable.rb:83-100 | reconcile with the kept filter chosen by whether the child type has discard, as the hooks are |
| CounterCacheable.ReconcileAsWrittenCountsDiscarded | fancy_count/lib/fancy_count/counter_cacheable.rb:92-100 | an in-sync counter is broken by the as-written reconcile and kept by the intended one |
| CounterCacheable.ReconcileRestoresSync | fancy_count/lib/fancy_count/counter_cacheable.rb:83-100 | reconcile succeeds, writes the parent's active-child count at its key alone, and leaves the parent in sync |
| CounterCacheable.ReconcileIdempotent | fancy_count/lib/fancy_count/counter_cacheable.rb:87-89 | reconciling twice equals reconciling once |
| CounterCacheable.OfType | fancy_count/lib/fancy_count/counter_cacheable.rb:67 | the default scope holds exactly the children of the type |
| CounterCacheable.ReconcileChildren | fancy_count/lib/fancy_count/counter_cacheable.rb:77-79 | the children in scope reconciled one after another, stopping at the first error |
| CounterCacheable.BulkReconcileEffect | fancy_count/lib/fancy_count/counter_cacheable.rb:63-80 | class reconcile: an unknown name raises before any child is visited; otherwise `ReconcileChildren` over the scope |
| CounterCacheable.BulkReconcileLeavesOthers | fancy_count/lib/fancy_count/counter_cacheable.rb:63-80 | bulk reconcile succeeds and leaves an unreferenced parent's counter unchanged |
| CounterCacheable.BulkReconcileSyncs | fancy_count/lib/fancy_count/counter_cacheable.rb:63-80 | bulk reconcile leaves the parent of every child in scope in sync, repeats included |
| CounterCacheable.Cacheable.constructor | fancy_count/lib/fancy_count/counter_cacheable.rb:30-32 | the cache registry starts empty |
| CounterCacheable.Cacheable.FancyCounterCache | fancy_count/lib/fancy_count/counter_cacheable.rb:34-38 | appends the entry with the accessor name and the association |
| CounterCacheable.Cacheable.RunHooks | fancy_count/lib/fancy_count/counter_cacheable.rb:40-60 | the hooks have exactly `HooksEffect`'s effect |
| CounterCacheable.Cacheable.CreateChild | fancy_count/lib/fancy_count/counter_cacheable.rb:40-43 | has exactly `Create`'s effect |
| CounterCacheable.Cacheable.DestroyChild | fancy_count/lib/fancy_count/counter_cacheable.rb:55-60 | has exactly `Destroy`'s effect |
| CounterCacheable.Cacheable.DiscardChild | fancy_count/lib/fancy_count/counter_cacheable.rb:45-49 | has exactly `Discard`'s effect: the row is saved as discarded before the hooks run, so it stays discarded when a hook fails |
| CounterCacheable.Cacheable.UndiscardChild | fancy_count/lib/fancy_count/counter_cacheable.rb:51-54 | has exactly `Undiscard`'s effect: the row is saved as kept before the hooks run |
| CounterCacheable.Cacheable.Reconcile | fancy_count/lib/fancy_count/counter_cacheable.rb:83-100 | has exactly the intended `ReconcileChild`'s effect |
| CounterCacheable.Cacheable.ReconcileAll | fancy_count/lib/fancy_count/counter_cacheable.rb:63-80 | raises on an unknown name before visiting any child, else has `ReconcileChildren`'s effect over the scope, all children of the type by default |
| CounterCacheable.Cacheable.ReconcileRows | fancy_count/lib/fancy_count/counter_cacheable.rb:77-79 | the loop over the scope has `ReconcileChildren`'s effect |
| CounterCacheable.Cacheable.ReconcileNext | fancy_count/lib/fancy_count/counter_cacheable.rb:77-79 | one child of the loop, and the rest of the fold after it |

## Left out

- **Networked backend.** `lib/fancy_count/redis_adapter.rb` and `fancy_count/lib/fancy_count/redis_adapter.rb` wrap a foreign network client and are not part of this model. Resolving to the Redis class, and the `:redis` branch of `fancy_counter_value`, end in `RedisNotModelled`. The base adapter's delegation is modelled with an inner counter that records the messages it receives.
- **ORM machinery.** Callbacks, `define_method`, `public_send`/`respond_to?` and `reflect_on_association` become explicit methods, maps and capability sets. SQL `distinct` and `find_each` batching are not modelled. Bulk reconcile visits the rows in scope in the order of the row sequence, not in primary-key order; each write is absolute and depends only on the rows, so the order does not affect the result. It may visit the same parent more than once, which `BulkReconcileSyncs` covers.
- **Symbols and strings.** Adapter and counter names are strings. The difference between `:test` and `"test"` in `fancy_counter_value`'s `case`, and `to_sym` in `detect`, are not modelled.
- **Configuration.** The instance-level `config.adapter` writer is not modelled; it bypasses validation. The class-level setter and the instance's fields are merged into one `Configuration` object.
- **Parents.** A parent's own discard state is not modelled. `DiscardParent` stands for the `after_discard` hook only.
- **Discarding twice.** Discarding an already-discarded child, or undiscarding a kept one, changes nothing, as the gem's non-raising `discard`/`undiscard` do. The raising `discard!` variants are not modelled.
- **Transactions.** When a create or destroy hook fails, the row change is rolled back (the children and the parent rows are unchanged), but writes already made to the counter store stay. The store is not transactional. `Discard`/`Undiscard` follow the discard gem, which saves the column before running its after-callbacks: a failing hook leaves the row discarded (or kept). The discard gem is not part of this model; its behaviour is taken from its documented `run_callbacks(:discard) { update_attribute(...) }` shape.
- **Unknown adapter class.** For an adapter name outside the table, Ruby's `adapter_class` returns nil and the error comes later, at `nil.new` inside `Counter#adapter`. `Resolve` reports it as `NoAdapterClass` from the lookup itself. No state differs: the memo stays nil either way.
- **Return values.** `increment`, `decrement` and `change` return the new value in Ruby, and `delete` returns the removed value. The model's operations return only success or the error, and the new value is read from the hash.
- **Parent rows.** `SaveParent` stands for saving a parent record; updates of a parent's other columns are not modelled.
- **Constructor arities.** `TestAdapter#initialize` takes one argument and passes one to `super`. `Adapter#initialize` takes two, and `Counter` passes two to `.new`. `adapter=` also calls a private instance helper from a class method. The model gives each call the arguments it evidently means and does not model the arity errors.
- **Concurrency.** Concurrent access to the shared hash or to Redis is not modelled.
- **Missing associations.** A `nil` parent on an optional `belongs_to` is treated as an absent link and raises `NoAssociation`.
- CounterCacheable.CreatePreservesSync: stated for the in-memory backend, a parent that the inflection tells apart from the parent the child's association leads to, a parent whose counter accessor does not recompute lazily, a child type with one registered cache, and a created child that is not already discarded; the same restrictions apply to DiscardKeptPreservesSync, UndiscardPreservesSync, DestroyPreservesSync and HookShift, because a lazy accessor or a second cache on the same counter moves the counter by more than one.
- CounterCacheable.BulkReconcileSyncs: stated for scopes whose children all have the class's type and whose parents the inflection tells apart.
- HasCountable.ScopedReconcile: stated for the in-memory backend with every record in scope reconcilable; other cases stop at the first error, as `ReconcileEach` says. Its frame covers records whose id is outside the scope; ScopedReconcileLeavesOtherTypes adds records of other types under the same counter name. Counters of other names are not framed, because keys of different counter names can coincide (CounterNamesCanShareKeys).

## Findings

| source | as written | input that shows it | evidently intended | confidence | as-written member | corrected member |
|---|---|---|---|---|---|---|
| fancy_count/lib/fancy_count/has_countable.rb:120 | the check is `has_key?(:reconcile_logic)`, but line 64 always stores that key | `fancy_counter :x` with no `reconcile_logic`, then `fancy_counters_reconcile(:x)` fails inside `send(nil)` | raise `MissingLogicError` when no logic was given | high; not executed | HasCountable.MissingLogicUnreachableAsWritten | HasCountable.Logic |
| fancy_count/lib/fancy_count/counter_cacheable.rb:95 | the `kept` filter is chosen by asking the parent record whether it responds to `kept` | a parent type without `kept`, a child type with discard, one discarded child: the in-sync counter 0 is overwritten with 1 | filter to kept children when the child collection has discard, matching the hooks | medium; not executed | CounterCacheable.ReconcileAsWrittenCountsDiscarded | CounterCacheable.ReconcileRestoresSync |
| lib/fancy_count/configuration.rb:31 | the message is a `%W[...]` literal, which builds an array of eight words | `adapter = :foo` raises with `["Missing", "adapter", "for", "foo,", ...]` | one sentence naming the rejected adapter and the valid ones | high; not executed | Configurations.MissingAdapterWordsIsNotASentence | Configurations.MissingAdapterMessage |

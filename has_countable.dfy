/**
 The parent side: a per-type registry of counters, the counter key derived from
 a record's id and type, the counter and count accessors (with the optional lazy
 recompute of an absent counter), reconciliation from the registered logic, and
 deletion of a record's counters when it is destroyed or discarded.
 */
module HasCountable {
  import opened Outcomes
  import opened Counts
  import opened Configurations
  import opened TestAdapters
  import opened Counters

  /** The inflections the library borrows: `singularize` and `underscore`, left uninterpreted. */
  datatype Inflector = Inflector(singularize: string -> string, underscore: string -> string)

  /** A record: its type (class name) and its id, `None` while it is not yet saved. */
  datatype Record = Record(typeName: string, id: Option<nat>)

  datatype Options = Options(reconcileOnMissing: bool, reconcileLogic: Option<string>)

  /** A registry entry `{name:, counter_name:, reconcile_logic:}`; `hasLogicKey` says whether the hash holds that key. */
  datatype CounterDef = CounterDef(name: string, counterName: string, hasLogicKey: bool, reconcileLogic: Option<string>)

  /** A defined counter accessor: its method name and, when it recomputes lazily, the logic method it calls. */
  datatype Accessor = Accessor(counterName: string, lazyLogic: Option<string>)

  /** What the parent side has declared: inflections, instance methods by name, discard capability and the registries. */
  datatype Decls = Decls(
    inflector: Inflector,
    send: (Record, string) -> int,
    discardable: set<string>,
    counters: map<string, seq<CounterDef>>,
    accessors: map<(string, string), Accessor>,
    deletionHooks: map<string, seq<string>>)

  /** The effect of a sequence of counter operations: the final state and how it ended. */
  datatype Effect = Effect(env: Env, outcome: Result<()>)

  function CountersOf(d: Decls, t: string): seq<CounterDef> {
    if t in d.counters then d.counters[t] else []
  }

  function HooksOf(d: Decls, t: string): seq<string> {
    if t in d.deletionHooks then d.deletionHooks[t] else []
  }

  // ---------------------------------------------------------------- names and keys

  function CounterMethodName(inf: Inflector, name: string): (r: string)
    ensures |r| == |inf.singularize(name)| + 14
    ensures r[..6] == "fancy_" && r[|r| - 8..] == "_counter"
  {
    "fancy_" + inf.singularize(name) + "_counter"
  }

  function CountMethodName(inf: Inflector, name: string): (r: string)
    ensures |r| == |inf.singularize(name)| + 12
    ensures r[..6] == "fancy_" && r[|r| - 6..] == "_count"
  {
    "fancy_" + inf.singularize(name) + "_count"
  }

  /** A counter accessor's name never coincides with a count accessor's. */
  lemma AccessorNamesDiffer(inf: Inflector, a: string, b: string)
    ensures CounterMethodName(inf, a) != CountMethodName(inf, b)
  {
    var x, y := CounterMethodName(inf, a), CountMethodName(inf, b);
    assert x[|x| - 1] == 'r' by { assert x[|x| - 1] == x[|x| - 8..][7]; }
    assert y[|y| - 1] == 't' by { assert y[|y| - 1] == y[|y| - 6..][5]; }
  }

  function Digit(d: nat): (c: char)
    requires d < 10
    ensures '0' <= c <= '9'
  {
    (('0' as int) + d) as char
  }

  /** Ruby's decimal `to_s` of an id: never empty, digits only. */
  function IdString(n: nat): (s: string)
    ensures |s| > 0
    ensures forall i :: 0 <= i < |s| ==> '0' <= s[i] <= '9'
    ensures n >= 10 ==> |s| >= 2
    decreases n
  {
    if n < 10 then [Digit(n)] else IdString(n / 10) + [Digit(n % 10)]
  }

  lemma {:induction false} IdStringInjective(a: nat, b: nat)
    requires IdString(a) == IdString(b)
    ensures a == b
    decreases a
  {
    if a < 10 && b < 10 {
      assert Digit(a) as int == '0' as int + a;
      assert Digit(b) as int == '0' as int + b;
    } else if a >= 10 && b >= 10 {
      var s := IdString(a);
      assert s == IdString(a / 10) + [Digit(a % 10)];
      assert s == IdString(b / 10) + [Digit(b % 10)];
      assert IdString(a / 10) == s[..|s| - 1] == IdString(b / 10);
      assert Digit(a % 10) == s[|s| - 1] == Digit(b % 10);
      assert Digit(a % 10) as int == '0' as int + a % 10;
      assert Digit(b % 10) as int == '0' as int + b % 10;
      IdStringInjective(a / 10, b / 10);
    }
  }

  /** String interpolation of a record's id: the decimal text, or nothing when the id is nil. */
  function IdText(id: Option<nat>): (s: string)
    ensures |s| > 0 <==> id.Some?
    ensures forall i :: 0 <= i < |s| ==> '0' <= s[i] <= '9'
  {
    match id
    case None => ""
    case Some(n) => IdString(n)
  }

  lemma IdTextInjective(a: Option<nat>, b: Option<nat>)
    requires IdText(a) == IdText(b)
    ensures a == b
  {
    if a.Some? && b.Some? {
      IdStringInjective(a.value, b.value);
    }
  }

  /** The counter key `"<id>_<underscored type>_<counter name>"`. */
  function CounterKey(inf: Inflector, rec: Record, counterName: string): string {
    IdText(rec.id) + "_" + inf.underscore(rec.typeName) + "_" + counterName
  }

  /** The position of the first `c` in `k`, or `|k|` when there is none. */
  function FirstIndex(k: string, c: char): (i: nat)
    ensures i <= |k|
    ensures forall j :: 0 <= j < i ==> k[j] != c
    ensures i < |k| ==> k[i] == c
    decreases |k|
  {
    if k == [] then 0 else if k[0] == c then 0 else 1 + FirstIndex(k[1..], c)
  }

  /** In a key, the first '_' ends the decimal id. */
  lemma {:induction false} FirstUnderscoreAfterDigits(s: string, rest: string)
    requires forall i :: 0 <= i < |s| ==> '0' <= s[i] <= '9'
    requires |rest| > 0 && rest[0] == '_'
    ensures FirstIndex(s + rest, '_') == |s|
    decreases |s|
  {
    if s == [] {
      assert s + rest == rest;
    } else {
      assert (s + rest)[1..] == s[1..] + rest;
      FirstUnderscoreAfterDigits(s[1..], rest);
    }
  }

  /** The id is recoverable from any counter key: keys of records with different ids never collide. */
  lemma KeyDeterminesId(inf: Inflector, p: Record, cp: string, q: Record, cq: string)
    requires CounterKey(inf, p, cp) == CounterKey(inf, q, cq)
    ensures p.id == q.id
  {
    var k := CounterKey(inf, p, cp);
    var s1, s2 := IdText(p.id), IdText(q.id);
    assert k == s1 + ("_" + inf.underscore(p.typeName) + "_" + cp);
    assert k == s2 + ("_" + inf.underscore(q.typeName) + "_" + cq);
    FirstUnderscoreAfterDigits(s1, "_" + inf.underscore(p.typeName) + "_" + cp);
    FirstUnderscoreAfterDigits(s2, "_" + inf.underscore(q.typeName) + "_" + cq);
    assert s1 == k[..|s1|] == s2;
    IdTextInjective(p.id, q.id);
  }

  /** With the same id and counter name, the key determines the underscored type. */
  lemma KeyDeterminesUnderscoredType(inf: Inflector, p: Record, q: Record, cn: string)
    requires p.id == q.id
    requires CounterKey(inf, p, cn) == CounterKey(inf, q, cn)
    ensures inf.underscore(p.typeName) == inf.underscore(q.typeName)
  {
    var k := CounterKey(inf, p, cn);
    var s, u1, u2 := IdText(p.id), inf.underscore(p.typeName), inf.underscore(q.typeName);
    assert |u1| == |u2|;
    assert k == (s + "_") + u1 + ("_" + cn);
    assert k == (s + "_") + u2 + ("_" + cn);
    assert u1 == k[|s| + 1..|s| + 1 + |u1|] == u2;
  }

  /** Two records the inflection can tell apart have different keys for the same counter. */
  ghost predicate Distinguishable(inf: Inflector, p: Record, q: Record) {
    p.typeName == q.typeName || inf.underscore(p.typeName) != inf.underscore(q.typeName)
  }

  lemma KeysDiffer(inf: Inflector, p: Record, q: Record, cn: string)
    requires p != q && Distinguishable(inf, p, q)
    ensures CounterKey(inf, p, cn) != CounterKey(inf, q, cn)
  {
    if CounterKey(inf, p, cn) == CounterKey(inf, q, cn) {
      KeyDeterminesId(inf, p, cn, q, cn);
      KeyDeterminesUnderscoredType(inf, p, q, cn);
    }
  }

  /**
   A record not yet saved has a nil id, so its key is the same for every unsaved
   record of its type, and it is not the key the record has once it is saved.
   */
  lemma UnsavedRecordKey(inf: Inflector, t: string, cn: string)
    ensures CounterKey(inf, Record(t, None), cn) == "_" + inf.underscore(t) + "_" + cn
    ensures forall n: nat :: CounterKey(inf, Record(t, Some(n)), cn) != CounterKey(inf, Record(t, None), cn)
  {
    forall n: nat
      ensures CounterKey(inf, Record(t, Some(n)), cn) != CounterKey(inf, Record(t, None), cn)
    {
      if CounterKey(inf, Record(t, Some(n)), cn) == CounterKey(inf, Record(t, None), cn) {
        KeyDeterminesId(inf, Record(t, Some(n)), cn, Record(t, None), cn);
      }
    }
  }

  // ---------------------------------------------------------------- accessor semantics

  /** `fancy_counter_value`: read the stored value straight from the configured backend. */
  function ReadStored(adapter: Option<string>, counts: Store, key: string): (r: Result<Option<int>>)
    ensures r.Ok? <==> adapter == Some("test")
    ensures r.Ok? ==> r.value == Get(counts, key)
  {
    match adapter
    case None => Err(UnknownAdapter(""))
    case Some(a) =>
      if a == "test" then Ok(Get(counts, key))
      else if a == "redis" then Err(RedisNotModelled)
      else Err(UnknownAdapter(a))
  }

  /** The reconcile-logic value a lazily recomputing accessor would store. */
  function LazyValue(d: Decls, rec: Record, acc: Accessor): Option<int> {
    match acc.lazyLogic
    case None => None
    case Some(m) => Some(d.send(rec, m))
  }

  /** The counter accessor at a key: a fresh handle, first changed to the lazy value when the key is absent. */
  function OpenAt(e: Env, key: string, lazy: Option<int>): Run {
    match ReadStored(e.adapter, e.counts, key)
    case Err(err) => Run(e, false, Err(err))
    case Ok(cur) =>
      if lazy.Some? && cur.None? then CounterRun(e, key, false, Change(lazy.value))
      else Run(e, false, Ok(()))
  }

  /** The counter accessor of a record, by accessor name. */
  function Open(e: Env, d: Decls, rec: Record, counterName: string): Run {
    if (rec.typeName, counterName) !in d.accessors then Run(e, false, Err(NoCounterMethod(counterName)))
    else OpenAt(e, CounterKey(d.inflector, rec, counterName), LazyValue(d, rec, d.accessors[(rec.typeName, counterName)]))
  }

  /** The accessor followed by one operation on the handle it returns. */
  function CounterOp(e: Env, d: Decls, rec: Record, counterName: string, op: Op): Run {
    var handle := Open(e, d, rec, counterName);
    if handle.outcome.Err? then handle
    else CounterRun(handle.env, CounterKey(d.inflector, rec, counterName), handle.resolved, op)
  }

  /** A reference for the accessor on the in-memory backend: the hash once the accessor has opened the key. */
  function TestOpened(m: Store, key: string, lazy: Option<int>): Store {
    if lazy.Some? && key !in m then m[key := lazy.value] else Init(m, key)
  }

  /** On the in-memory backend every accessor operation succeeds and acts on the opened hash. */
  lemma CounterOpOnTestBackend(e: Env, d: Decls, rec: Record, counterName: string, op: Op)
    requires TestBackend(e) && (rec.typeName, counterName) in d.accessors
    ensures var key := CounterKey(d.inflector, rec, counterName);
            var lazy := LazyValue(d, rec, d.accessors[(rec.typeName, counterName)]);
            var run := CounterOp(e, d, rec, counterName, op);
            run.outcome.Ok? && TestBackend(run.env) && run.env.adapter == e.adapter && run.env.memo == Some(Test) &&
            Ok(run.env.counts) == Step(TestOpened(e.counts, key, lazy), key, op)
  {
    var key := CounterKey(d.inflector, rec, counterName);
    var lazy := LazyValue(d, rec, d.accessors[(rec.typeName, counterName)]);
    var handle := OpenAt(e, key, lazy);
    if lazy.Some? && key !in e.counts {
      assert handle.env.counts == Init(e.counts, key)[key := lazy.value];
      assert Init(e.counts, key)[key := lazy.value] == e.counts[key := lazy.value];
    } else {
      assert handle == Run(e, false, Ok(()));
    }
  }

  /** Without lazy recompute, an untouched counter reads 0 (and is then stored as 0). */
  lemma UntouchedCounterReadsZero(e: Env, d: Decls, rec: Record, counterName: string)
    requires TestBackend(e) && (rec.typeName, counterName) in d.accessors
    requires d.accessors[(rec.typeName, counterName)].lazyLogic.None?
    requires CounterKey(d.inflector, rec, counterName) !in e.counts
    ensures ReadAfter(CounterOp(e, d, rec, counterName, Op.Value), CounterKey(d.inflector, rec, counterName)) == Ok(Some(0))
  {
    CounterOpOnTestBackend(e, d, rec, counterName, Op.Value);
  }

  /**
   With lazy recompute, an absent counter reads the logic's value and stores it;
   a second read finds it present and changes nothing, so the logic is not consulted again.
   */
  lemma LazyRecomputeOnce(e: Env, d: Decls, rec: Record, counterName: string)
    requires TestBackend(e) && (rec.typeName, counterName) in d.accessors
    requires d.accessors[(rec.typeName, counterName)].lazyLogic.Some?
    requires CounterKey(d.inflector, rec, counterName) !in e.counts
    ensures var key := CounterKey(d.inflector, rec, counterName);
            var v := d.send(rec, d.accessors[(rec.typeName, counterName)].lazyLogic.value);
            var first := CounterOp(e, d, rec, counterName, Op.Value);
            ReadAfter(first, key) == Ok(Some(v)) && first.env.counts == e.counts[key := v] &&
            Open(first.env, d, rec, counterName) == Run(first.env, false, Ok(()))
  {
    CounterOpOnTestBackend(e, d, rec, counterName, Op.Value);
  }

  /** A counter that is already stored reads its stored value, lazily recomputing or not. */
  lemma StoredCounterKeepsValue(e: Env, d: Decls, rec: Record, counterName: string)
    requires TestBackend(e) && (rec.typeName, counterName) in d.accessors
    requires CounterKey(d.inflector, rec, counterName) in e.counts
    ensures var key := CounterKey(d.inflector, rec, counterName);
            var run := CounterOp(e, d, rec, counterName, Op.Value);
            ReadAfter(run, key) == Ok(Some(e.counts[key])) && run.env.counts == e.counts
  {
    CounterOpOnTestBackend(e, d, rec, counterName, Op.Value);
  }

  // ---------------------------------------------------------------- reconciliation

  /** `detect`: the first entry registered under `name`. */
  function FindCounter(defs: seq<CounterDef>, name: string): (r: Option<CounterDef>)
    ensures r.None? <==> forall i :: 0 <= i < |defs| ==> defs[i].name != name
    ensures r.Some? ==> r.value.name == name
    ensures r.Some? ==> exists i :: 0 <= i < |defs| && defs[i] == r.value && forall j :: 0 <= j < i ==> defs[j].name != name
    decreases |defs|
  {
    if defs == [] then None
    else if defs[0].name == name then Some(defs[0])
    else FindCounter(defs[1..], name)
  }

  /** The reconcile-logic check as written: `has_key?(:reconcile_logic)`, then `send` of the stored value. */
  function LogicAsWritten(def: CounterDef, countName: string): Result<string> {
    if !def.hasLogicKey then Err(MissingLogic(countName))
    else
      match def.reconcileLogic
      case None => Err(NilLogic)
      case Some(m) => Ok(m)
  }

  /** The reconcile-logic check as intended: a counter without logic raises `MissingLogicError`. */
  function Logic(def: CounterDef, countName: string): (r: Result<string>)
    ensures r.Err? <==> def.reconcileLogic.None?
    ensures r.Err? ==> r.error == MissingLogic(countName)
    ensures r.Ok? ==> Some(r.value) == def.reconcileLogic
  {
    match def.reconcileLogic
    case None => Err(MissingLogic(countName))
    case Some(m) => Ok(m)
  }

  /** Every entry `fancy_counter` registers stores the `reconcile_logic` key. */
  ghost predicate EntriesHaveLogicKey(d: Decls) {
    forall t, i :: t in d.counters && 0 <= i < |d.counters[t]| ==> d.counters[t][i].hasLogicKey
  }

  /**
   As written, `MissingLogicError` cannot be raised for a registered entry; an
   entry registered without logic raises the `send(nil)` error instead.
   */
  lemma MissingLogicUnreachableAsWritten(d: Decls, t: string, name: string, countName: string)
    requires EntriesHaveLogicKey(d)
    requires FindCounter(CountersOf(d, t), name).Some?
    ensures var def := FindCounter(CountersOf(d, t), name).value;
            LogicAsWritten(def, countName) != Err(MissingLogic(countName)) &&
            (def.reconcileLogic.None? ==> LogicAsWritten(def, countName) == Err(NilLogic) &&
                                          Logic(def, countName) == Err(MissingLogic(countName)))
  {
    var defs := CountersOf(d, t);
    var def := FindCounter(defs, name).value;
    var i :| 0 <= i < |defs| && defs[i] == def;
  }

  /** Instance reconcile: look the counter up, run its logic, overwrite the counter with the result. */
  function ReconcileOne(e: Env, d: Decls, rec: Record, name: string): Run {
    var countName := CountMethodName(d.inflector, name);
    match FindCounter(CountersOf(d, rec.typeName), name)
    case None => Run(e, false, Err(UnknownCounter(countName)))
    case Some(def) =>
      match Logic(def, countName)
      case Err(err) => Run(e, false, Err(err))
      case Ok(m) => CounterOp(e, d, rec, def.counterName, Change(d.send(rec, m)))
  }

  /** Reconcile on an unregistered name raises and changes nothing. */
  lemma ReconcileUnknownRaises(e: Env, d: Decls, rec: Record, name: string)
    requires forall i :: 0 <= i < |CountersOf(d, rec.typeName)| ==> CountersOf(d, rec.typeName)[i].name != name
    ensures ReconcileOne(e, d, rec, name) == Run(e, false, Err(UnknownCounter(CountMethodName(d.inflector, name))))
  {
  }

  /** Reconciliation can proceed for `rec` on the in-memory backend. */
  ghost predicate Reconcilable(e: Env, d: Decls, rec: Record, name: string) {
    TestBackend(e) &&
    FindCounter(CountersOf(d, rec.typeName), name).Some? &&
    FindCounter(CountersOf(d, rec.typeName), name).value.reconcileLogic.Some? &&
    (rec.typeName, FindCounter(CountersOf(d, rec.typeName), name).value.counterName) in d.accessors
  }

  /** The key reconciliation writes for `rec`. */
  function ReconcileKey(d: Decls, rec: Record, name: string): string
    requires FindCounter(CountersOf(d, rec.typeName), name).Some?
  {
    CounterKey(d.inflector, rec, FindCounter(CountersOf(d, rec.typeName), name).value.counterName)
  }

  /** The value reconciliation writes for `rec`. */
  function ReconcileValue(d: Decls, rec: Record, name: string): int
    requires FindCounter(CountersOf(d, rec.typeName), name).Some?
    requires FindCounter(CountersOf(d, rec.typeName), name).value.reconcileLogic.Some?
  {
    d.send(rec, FindCounter(CountersOf(d, rec.typeName), name).value.reconcileLogic.value)
  }

  /** Reconcile overwrites the counter with the logic's value whatever it held, and touches no other key. */
  lemma ReconcileOverwrites(e: Env, d: Decls, rec: Record, name: string)
    requires Reconcilable(e, d, rec, name)
    ensures var run := ReconcileOne(e, d, rec, name);
            run.outcome.Ok? && TestBackend(run.env) && run.env.adapter == e.adapter &&
            run.env.counts == e.counts[ReconcileKey(d, rec, name) := ReconcileValue(d, rec, name)]
  {
    var def := FindCounter(CountersOf(d, rec.typeName), name).value;
    CounterOpOnTestBackend(e, d, rec, def.counterName, Change(ReconcileValue(d, rec, name)));
    var key := ReconcileKey(d, rec, name);
    var lazy := LazyValue(d, rec, d.accessors[(rec.typeName, def.counterName)]);
    assert TestOpened(e.counts, key, lazy)[key := ReconcileValue(d, rec, name)]
        == e.counts[key := ReconcileValue(d, rec, name)];
  }

  /** Class reconcile: reconcile every record of type `t` whose id is in scope, stopping at the first error. */
  function ReconcileEach(e: Env, d: Decls, t: string, ids: seq<Option<nat>>, name: string): Effect
    decreases |ids|
  {
    if ids == [] then Effect(e, Ok(()))
    else
      var run := ReconcileOne(e, d, Record(t, ids[0]), name);
      if run.outcome.Err? then Effect(run.env, run.outcome)
      else ReconcileEach(run.env, d, t, ids[1..], name)
  }

  lemma ReconcileEachUnfold(e: Env, d: Decls, t: string, ids: seq<Option<nat>>, name: string)
    requires ids != []
    ensures var run := ReconcileOne(e, d, Record(t, ids[0]), name);
            ReconcileEach(e, d, t, ids, name) ==
              if run.outcome.Err? then Effect(run.env, run.outcome) else ReconcileEach(run.env, d, t, ids[1..], name)
  {
  }

  /** Every record of type `t` in scope can be reconciled. */
  ghost predicate ScopeReconcilable(d: Decls, t: string, ids: seq<Option<nat>>, name: string) {
    forall i :: 0 <= i < |ids| ==> Reconcilable(Env(map[], Some("test"), None), d, Record(t, ids[i]), name)
  }

  lemma ReconcilableOnAnyTestEnv(e: Env, d: Decls, rec: Record, name: string)
    requires TestBackend(e) && Reconcilable(Env(map[], Some("test"), None), d, rec, name)
    ensures Reconcilable(e, d, rec, name)
  {
  }

  /**
   Scoped class reconcile: it succeeds, every record in scope ends with its logic's
   value, and every counter of a record whose id is outside the scope is unchanged.
   */
  lemma {:induction false} ScopedReconcile(e: Env, d: Decls, t: string, ids: seq<Option<nat>>, name: string)
    requires TestBackend(e) && ScopeReconcilable(d, t, ids, name)
    ensures var eff := ReconcileEach(e, d, t, ids, name);
            eff.outcome.Ok? && TestBackend(eff.env) &&
            (forall i :: 0 <= i < |ids| ==>
               var rec := Record(t, ids[i]);
               Get(eff.env.counts, ReconcileKey(d, rec, name)) == Some(ReconcileValue(d, rec, name))) &&
            (forall p: Record, cn: string :: p.id !in ids ==>
               Get(eff.env.counts, CounterKey(d.inflector, p, cn)) == Get(e.counts, CounterKey(d.inflector, p, cn)))
    decreases |ids|
  {
    if ids != [] {
      var rec := Record(t, ids[0]);
      ReconcilableOnAnyTestEnv(e, d, rec, name);
      ReconcileOverwrites(e, d, rec, name);
      var run := ReconcileOne(e, d, rec, name);
      var key := ReconcileKey(d, rec, name);
      assert ScopeReconcilable(d, t, ids[1..], name) by {
        forall i | 0 <= i < |ids[1..]|
          ensures Reconcilable(Env(map[], Some("test"), None), d, Record(t, ids[1..][i]), name)
        {
          assert ids[1..][i] == ids[i + 1];
        }
      }
      ScopedReconcile(run.env, d, t, ids[1..], name);
      var eff := ReconcileEach(e, d, t, ids, name);
      assert eff == ReconcileEach(run.env, d, t, ids[1..], name);
      forall i | 0 <= i < |ids|
        ensures Get(eff.env.counts, ReconcileKey(d, Record(t, ids[i]), name))
             == Some(ReconcileValue(d, Record(t, ids[i]), name))
      {
        var r := Record(t, ids[i]);
        if i == 0 || ids[i] == ids[0] {
          if ids[0] in ids[1..] {
            var j :| 0 <= j < |ids[1..]| && ids[1..][j] == ids[0];
          } else {
            assert Get(run.env.counts, key) == Some(ReconcileValue(d, rec, name));
          }
        } else {
          assert ids[i] == ids[1..][i - 1];
        }
      }
      forall p: Record, cn: string | p.id !in ids
        ensures Get(eff.env.counts, CounterKey(d.inflector, p, cn)) == Get(e.counts, CounterKey(d.inflector, p, cn))
      {
        assert p.id !in ids[1..];
        if CounterKey(d.inflector, p, cn) == key {
          KeyDeterminesId(d.inflector, p, cn, rec, FindCounter(CountersOf(d, t), name).value.counterName);
        }
      }
    }
  }

  lemma ScopeReconcilableTail(d: Decls, t: string, ids: seq<Option<nat>>, name: string)
    requires ids != [] && ScopeReconcilable(d, t, ids, name)
    ensures ScopeReconcilable(d, t, ids[1..], name)
  {
    forall i | 0 <= i < |ids[1..]|
      ensures Reconcilable(Env(map[], Some("test"), None), d, Record(t, ids[1..][i]), name)
    {
      assert ids[1..][i] == ids[i + 1];
    }
  }

  /**
   Scoped class reconcile of type `t` leaves alone the same-named counter of a record of
   another type that the inflection tells apart from `t`, whatever its id.
   */
  lemma {:induction false} ScopedReconcileLeavesOtherTypes(e: Env, d: Decls, t: string, ids: seq<Option<nat>>, name: string, p: Record)
    requires TestBackend(e) && ScopeReconcilable(d, t, ids, name)
    requires p.typeName != t && Distinguishable(d.inflector, p, Record(t, p.id))
    ensures var eff := ReconcileEach(e, d, t, ids, name);
            FindCounter(CountersOf(d, t), name).Some? ==>
              var key := CounterKey(d.inflector, p, FindCounter(CountersOf(d, t), name).value.counterName);
              Get(eff.env.counts, key) == Get(e.counts, key)
    decreases |ids|
  {
    if ids != [] {
      var rec := Record(t, ids[0]);
      ReconcilableOnAnyTestEnv(e, d, rec, name);
      ReconcileOverwrites(e, d, rec, name);
      var run := ReconcileOne(e, d, rec, name);
      ScopeReconcilableTail(d, t, ids, name);
      ScopedReconcileLeavesOtherTypes(run.env, d, t, ids[1..], name, p);
      KeysDiffer(d.inflector, p, rec, FindCounter(CountersOf(d, t), name).value.counterName);
      assert ReconcileEach(e, d, t, ids, name) == ReconcileEach(run.env, d, t, ids[1..], name);
    }
  }

  /**
   Keys of different counter names can coincide: when one type underscores to another's
   name followed by `_x`, its counter `c` shares a key with the other's counter `x_c`.
   With identity inflections, a `User`'s `fancy_post_fancy_tag_counter` and a
   `User_fancy_post`'s `fancy_tag_counter` are one key.
   */
  lemma CounterNamesCanShareKeys(inf: Inflector, id: Option<nat>, t1: string, t2: string, x: string, c: string)
    requires inf.underscore(t2) == inf.underscore(t1) + "_" + x
    ensures CounterKey(inf, Record(t1, id), x + "_" + c) == CounterKey(inf, Record(t2, id), c)
  {
    var s, u := IdText(id), inf.underscore(t1);
    assert CounterKey(inf, Record(t1, id), x + "_" + c) == s + "_" + u + "_" + x + "_" + c;
    assert CounterKey(inf, Record(t2, id), c) == s + "_" + (u + "_" + x) + "_" + c;
  }

  // ---------------------------------------------------------------- deletion on destroy / discard

  /** The deletion hooks of `rec`: delete each registered counter in turn, stopping at the first error. */
  function DeleteCounters(e: Env, d: Decls, rec: Record, names: seq<string>): Effect
    decreases |names|
  {
    if names == [] then Effect(e, Ok(()))
    else
      var run := CounterOp(e, d, rec, names[0], Delete);
      if run.outcome.Err? then Effect(run.env, run.outcome)
      else DeleteCounters(run.env, d, rec, names[1..])
  }

  /**
   On the in-memory backend the deletion hooks remove exactly the keys of the
   record's registered counters: afterwards each reads nil, and every other key is unchanged.
   */
  lemma {:induction false} DeletionRemovesCounters(e: Env, d: Decls, rec: Record, names: seq<string>)
    requires TestBackend(e)
    requires forall i :: 0 <= i < |names| ==> (rec.typeName, names[i]) in d.accessors
    ensures var eff := DeleteCounters(e, d, rec, names);
            eff.outcome.Ok? && TestBackend(eff.env) &&
            eff.env.counts == e.counts - set i | 0 <= i < |names| :: CounterKey(d.inflector, rec, names[i])
    decreases |names|
  {
    var gone := set i | 0 <= i < |names| :: CounterKey(d.inflector, rec, names[i]);
    if names == [] {
      assert gone == {};
      assert e.counts - gone == e.counts;
    } else {
      var key := CounterKey(d.inflector, rec, names[0]);
      CounterOpOnTestBackend(e, d, rec, names[0], Delete);
      var run := CounterOp(e, d, rec, names[0], Delete);
      assert run.env.counts == e.counts - {key};
      DeletionRemovesCounters(run.env, d, rec, names[1..]);
      var rest := set i | 0 <= i < |names[1..]| :: CounterKey(d.inflector, rec, names[1..][i]);
      assert gone == {key} + rest by {
        forall k | k in gone ensures k in {key} + rest {
          var i :| 0 <= i < |names| && k == CounterKey(d.inflector, rec, names[i]);
          if i > 0 { assert names[i] == names[1..][i - 1]; }
        }
        forall k | k in rest ensures k in gone {
          var i :| 0 <= i < |names[1..]| && k == CounterKey(d.inflector, rec, names[1..][i]);
          assert names[1..][i] == names[i + 1];
        }
      }
      assert e.counts - {key} - rest == e.counts - gone;
    }
  }

  // ---------------------------------------------------------------- the mixin's state

  class Countable {
    const inflector: Inflector
    /** The records' instance methods that `reconcile_logic` names, evaluated by name. */
    const send: (Record, string) -> int
    /** The types that have the discard capability. */
    const discardable: set<string>
    const store: CountStore
    /** The global configuration. */
    const config: Configuration

    /** `fancy_counters` of each type. */
    var counters: map<string, seq<CounterDef>>
    /** The counter accessors `define_method` has defined, by type and method name. */
    var accessors: map<(string, string), Accessor>
    /** The counter names whose deletion hooks each type has registered, in registration order. */
    var deletionHooks: map<string, seq<string>>
    /** The parent rows. */
    var parents: seq<Record>

    constructor (inflector: Inflector, send: (Record, string) -> int, discardable: set<string>,
                 store: CountStore, config: Configuration)
      ensures this.inflector == inflector && this.send == send && this.discardable == discardable
      ensures this.store == store && this.config == config
      ensures counters == map[] && accessors == map[] && deletionHooks == map[] && parents == []
    {
      this.inflector := inflector;
      this.send := send;
      this.discardable := discardable;
      this.store := store;
      this.config := config;
      counters := map[];
      accessors := map[];
      deletionHooks := map[];
      parents := [];
    }

    function Declared(): Decls
      reads this
    {
      Decls(inflector, send, discardable, counters, accessors, deletionHooks)
    }

    /** Saving a new parent row: it is stored with the id the database gave it. */
    method SaveParent(typeName: string, id: nat) returns (rec: Record)
      modifies this`parents
      ensures rec == Record(typeName, Some(id)) && parents == old(parents) + [rec]
    {
      rec := Record(typeName, Some(id));
      parents := parents + [rec];
    }

    ghost function Snapshot(): Env
      reads store, config
    {
      Env(store.counts, config.adapter, config.adapterClass)
    }

    /**
     `fancy_counter`: append the entry, then refuse `reconcile_on_missing` without
     logic (the entry stays registered, no accessor is defined), otherwise define the
     accessor and register the deletion hook.
     */
    method FancyCounter(t: string, name: string, options: Options) returns (r: Result<()>)
      modifies this
      ensures var cn := CounterMethodName(inflector, name);
              counters == old(counters)[t := old(CountersOf(Declared(), t)) + [CounterDef(name, cn, true, options.reconcileLogic)]]
      ensures r.Err? <==> options.reconcileOnMissing && options.reconcileLogic.None?
      ensures r.Err? ==> r.error == ReconcileRequired && accessors == old(accessors) && deletionHooks == old(deletionHooks)
      ensures var cn := CounterMethodName(inflector, name);
              r.Ok? ==> accessors == old(accessors)[(t, cn) := Accessor(cn, if options.reconcileOnMissing then options.reconcileLogic else None)] &&
                        deletionHooks == old(deletionHooks)[t := old(HooksOf(Declared(), t)) + [cn]]
      ensures parents == old(parents)
    {
      var cn := CounterMethodName(inflector, name);
      counters := counters[t := CountersOf(Declared(), t) + [CounterDef(name, cn, true, options.reconcileLogic)]];
      if options.reconcileOnMissing && options.reconcileLogic.None? {
        return Err(ReconcileRequired);
      }
      accessors := accessors[(t, cn) := Accessor(cn, if options.reconcileOnMissing then options.reconcileLogic else None)];
      deletionHooks := deletionHooks[t := HooksOf(Declared(), t) + [cn]];
      r := Ok(());
    }

    /** The counter accessor `fancy_<singular>_counter` of `rec`. */
    method CounterFor(rec: Record, counterName: string) returns (r: Result<Counter>)
      modifies store, config
      ensures var run := Open(old(Snapshot()), Declared(), rec, counterName);
              Snapshot() == run.env && (r.Ok? <==> run.outcome.Ok?) && (r.Err? ==> r.error == run.outcome.error)
      ensures r.Ok? ==> fresh(r.value) && r.value.Valid() && r.value.store == store && r.value.config == config &&
                        r.value.name == CounterKey(inflector, rec, counterName) &&
                        (r.value.adapter != null) == Open(old(Snapshot()), Declared(), rec, counterName).resolved
    {
      if (rec.typeName, counterName) !in accessors {
        return Err(NoCounterMethod(counterName));
      }
      var acc := accessors[(rec.typeName, counterName)];
      var key := CounterKey(inflector, rec, counterName);
      var current := ReadStored(config.adapter, store.counts, key);
      if current.Err? {
        return Err(current.error);
      }
      var c := new Counter(key, null, config, store);
      if acc.lazyLogic.Some? && current.value.None? {
        var x := c.Perform(Change(send(rec, acc.lazyLogic.value)));
        if x.Err? {
          return Err(x.error);
        }
      }
      r := Ok(c);
    }

    /** One operation on the counter the accessor returns. */
    method Apply(rec: Record, counterName: string, op: Op) returns (r: Result<()>)
      modifies store, config
      ensures var run := CounterOp(old(Snapshot()), Declared(), rec, counterName, op);
              Snapshot() == run.env && r == run.outcome
    {
      var c := CounterFor(rec, counterName);
      if c.Err? {
        return Err(c.error);
      }
      r := c.value.Perform(op);
    }

    /** The count accessor `fancy_<singular>_count`: the value of the counter accessor's handle. */
    method Count(rec: Record, counterName: string) returns (r: Result<Option<int>>)
      modifies store, config
      ensures var run := CounterOp(old(Snapshot()), Declared(), rec, counterName, Op.Value);
              Snapshot() == run.env && r == ReadAfter(run, CounterKey(inflector, rec, counterName))
    {
      var c := CounterFor(rec, counterName);
      if c.Err? {
        return Err(c.error);
      }
      r := c.value.Value();
    }

    /** Instance `fancy_counters_reconcile`. */
    method Reconcile(rec: Record, name: string) returns (r: Result<()>)
      modifies store, config
      ensures var run := ReconcileOne(old(Snapshot()), Declared(), rec, name);
              Snapshot() == run.env && r == run.outcome
    {
      var countName := CountMethodName(inflector, name);
      var def := FindCounter(CountersOf(Declared(), rec.typeName), name);
      if def.None? {
        return Err(UnknownCounter(countName));
      }
      var logic := Logic(def.value, countName);
      if logic.Err? {
        return Err(logic.error);
      }
      r := Apply(rec, def.value.counterName, Change(send(rec, logic.value)));
    }

    /** The ids of the parent rows of type `t`, in row order. */
    function IdsOf(rows: seq<Record>, t: string): (ids: seq<Option<nat>>)
      ensures forall id :: id in ids <==> Record(t, id) in rows
      decreases |rows|
    {
      if rows == [] then []
      else (if rows[0].typeName == t then [rows[0].id] else []) + IdsOf(rows[1..], t)
    }

    /** Class `fancy_counters_reconcile`: every record of type `t` in scope (all of them by default). */
    method ReconcileAll(t: string, name: string, scope: Option<seq<Option<nat>>>) returns (r: Result<()>)
      modifies store, config
      ensures var eff := ReconcileEach(old(Snapshot()), Declared(), t, scope.GetOr(IdsOf(parents, t)), name);
              Snapshot() == eff.env && r == eff.outcome
    {
      r := ReconcileIds(t, scope.GetOr(IdsOf(parents, t)), name);
    }

    /** The loop of the class reconcile over the ids in scope. */
    method ReconcileIds(t: string, ids: seq<Option<nat>>, name: string) returns (r: Result<()>)
      modifies store, config
      ensures var eff := ReconcileEach(old(Snapshot()), Declared(), t, ids, name);
              Snapshot() == eff.env && r == eff.outcome
    {
      var i := 0;
      while i < |ids|
        invariant 0 <= i <= |ids|
        invariant ReconcileEach(old(Snapshot()), Declared(), t, ids, name) == ReconcileEach(Snapshot(), Declared(), t, ids[i..], name)
      {
        r := ReconcileNext(t, ids, i, name);
        if r.Err? {
          return;
        }
        i := i + 1;
      }
      r := Ok(());
    }

    /** One record of the class reconcile: its effect, and the rest of the fold after it. */
    method ReconcileNext(t: string, ids: seq<Option<nat>>, i: nat, name: string) returns (r: Result<()>)
      requires i < |ids|
      modifies store, config
      ensures ReconcileEach(old(Snapshot()), Declared(), t, ids[i..], name)
           == if r.Err? then Effect(Snapshot(), r) else ReconcileEach(Snapshot(), Declared(), t, ids[i + 1..], name)
    {
      ghost var before := Snapshot();
      r := Reconcile(Record(t, ids[i]), name);
      assert ids[i..][0] == ids[i] && ids[i..][1..] == ids[i + 1..];
      ReconcileEachUnfold(before, Declared(), t, ids[i..], name);
    }

    /** The deletion hooks of `rec`, in registration order. */
    method RunDeletionHooks(rec: Record) returns (r: Result<()>)
      modifies store, config
      ensures var eff := DeleteCounters(old(Snapshot()), Declared(), rec, HooksOf(Declared(), rec.typeName));
              Snapshot() == eff.env && r == eff.outcome
    {
      var names := HooksOf(Declared(), rec.typeName);
      var i := 0;
      while i < |names|
        invariant 0 <= i <= |names|
        invariant DeleteCounters(old(Snapshot()), Declared(), rec, names) == DeleteCounters(Snapshot(), Declared(), rec, names[i..])
      {
        r := Apply(rec, names[i], Delete);
        assert names[i..][0] == names[i] && names[i..][1..] == names[i + 1..];
        if r.Err? {
          return;
        }
        i := i + 1;
      }
      r := Ok(());
    }

    /** Destroying a parent row: on a type without discard its counters are deleted after the row is removed. */
    method DestroyParent(i: nat) returns (r: Result<()>)
      requires i < |parents|
      modifies this, store, config
      ensures counters == old(counters) && accessors == old(accessors) && deletionHooks == old(deletionHooks)
      ensures var rec := old(parents[i]);
              rec.typeName in discardable ==> r.Ok? && Snapshot() == old(Snapshot())
      ensures var rec := old(parents[i]);
              var eff := DeleteCounters(old(Snapshot()), old(Declared()), rec, old(HooksOf(Declared(), rec.typeName)));
              rec.typeName !in discardable ==> Snapshot() == eff.env && r == eff.outcome
      ensures parents == if r.Ok? then old(parents[..i] + parents[i + 1..]) else old(parents)
    {
      var rec := parents[i];
      if rec.typeName !in discardable {
        r := RunDeletionHooks(rec);
        if r.Err? {
          return;
        }
      } else {
        r := Ok(());
      }
      parents := parents[..i] + parents[i + 1..];
    }

    /** Discarding a parent row: only a type with discard has the hook, which deletes its counters. */
    method DiscardParent(i: nat) returns (r: Result<()>)
      requires i < |parents|
      modifies store, config
      ensures var rec := parents[i];
              rec.typeName !in discardable ==> r == Err(NoDiscard) && Snapshot() == old(Snapshot())
      ensures var rec := parents[i];
              var eff := DeleteCounters(old(Snapshot()), Declared(), rec, HooksOf(Declared(), rec.typeName));
              rec.typeName in discardable ==> Snapshot() == eff.env && r == eff.outcome
    {
      var rec := parents[i];
      if rec.typeName !in discardable {
        return Err(NoDiscard);
      }
      r := RunDeletionHooks(rec);
    }
  }
}

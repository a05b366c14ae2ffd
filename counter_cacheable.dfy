/**
 The child side: a per-type registry of counter caches, each naming the parent's
 counter and the `belongs_to` association that leads to the parent. Creating a
 child increments the parent's counter; destroying it (or, for a type with
 discard, discarding it) decrements it; undiscarding increments it again.
 Reconciliation overwrites the parent's counter with the number of its children.
 */
module CounterCacheable {
  import opened Outcomes
  import opened Counts
  import opened Configurations
  import opened Counters
  import opened HasCountable

  /** A child row: its type, id, the parent each `belongs_to` association leads to, and whether it is discarded. */
  datatype Child = Child(typeName: string, id: nat, links: map<string, Record>, discarded: bool)

  /** A registry entry `{name:, counter_name:, association_name:}`. */
  datatype CacheDef = CacheDef(name: string, counterName: string, associationName: string)

  /**
   What the child side has declared: the parent side's declarations, the cache
   registry, the child types with discard, and the parent types whose records respond to `kept`.
   */
  datatype Setup = Setup(d: Decls, caches: map<string, seq<CacheDef>>, discardable: set<string>, keptResponders: set<string>)

  /** The counter state together with the child rows. */
  datatype World = World(env: Env, children: seq<Child>)

  /** A child-side event: the new world and how it ended. */
  datatype After = After(world: World, outcome: Result<()>)

  function CachesOf(s: Setup, t: string): seq<CacheDef> {
    if t in s.caches then s.caches[t] else []
  }

  // ---------------------------------------------------------------- counting children

  function Linked(c: Child, assoc: string, p: Record): bool {
    assoc in c.links && c.links[assoc] == p
  }

  /** Whether `c` is one of `p`'s children of type `t` through `assoc` (kept ones only, when asked). */
  function Counted(c: Child, t: string, assoc: string, p: Record, keptOnly: bool): nat {
    if c.typeName == t && Linked(c, assoc, p) && (!keptOnly || !c.discarded) then 1 else 0
  }

  /** The size of `p`'s child collection: `association.send(name)`, optionally `.kept`, then `.count`. */
  function ActiveCount(cs: seq<Child>, t: string, assoc: string, p: Record, keptOnly: bool): nat
    decreases |cs|
  {
    if cs == [] then 0
    else ActiveCount(cs[..|cs| - 1], t, assoc, p, keptOnly) + Counted(cs[|cs| - 1], t, assoc, p, keptOnly)
  }

  lemma CountAppend(cs: seq<Child>, c: Child, t: string, assoc: string, p: Record, keptOnly: bool)
    ensures ActiveCount(cs + [c], t, assoc, p, keptOnly) == ActiveCount(cs, t, assoc, p, keptOnly) + Counted(c, t, assoc, p, keptOnly)
  {
    assert (cs + [c])[..|cs|] == cs;
  }

  lemma {:induction false} CountUpdate(cs: seq<Child>, i: nat, c: Child, t: string, assoc: string, p: Record, keptOnly: bool)
    requires i < |cs|
    ensures ActiveCount(cs[i := c], t, assoc, p, keptOnly)
         == ActiveCount(cs, t, assoc, p, keptOnly) - Counted(cs[i], t, assoc, p, keptOnly) + Counted(c, t, assoc, p, keptOnly)
    decreases |cs|
  {
    var n := |cs| - 1;
    if i == n {
      assert cs[i := c][..n] == cs[..n];
    } else {
      assert cs[i := c][..n] == cs[..n][i := c];
      CountUpdate(cs[..n], i, c, t, assoc, p, keptOnly);
    }
  }

  lemma {:induction false} CountRemove(cs: seq<Child>, i: nat, t: string, assoc: string, p: Record, keptOnly: bool)
    requires i < |cs|
    ensures ActiveCount(cs[..i] + cs[i + 1..], t, assoc, p, keptOnly)
         == ActiveCount(cs, t, assoc, p, keptOnly) - Counted(cs[i], t, assoc, p, keptOnly)
    decreases |cs|
  {
    var n := |cs| - 1;
    var rest := cs[..i] + cs[i + 1..];
    if i == n {
      assert rest == cs[..n];
    } else {
      assert rest[..|rest| - 1] == cs[..n][..i] + cs[..n][i + 1..];
      assert rest[|rest| - 1] == cs[n];
      CountRemove(cs[..n], i, t, assoc, p, keptOnly);
    }
  }

  // ---------------------------------------------------------------- the hooks

  /** One hook: follow the association to the parent and apply `op` to its counter. */
  function HookRun(e: Env, d: Decls, c: Child, cd: CacheDef, op: Op): Run {
    if cd.associationName !in c.links then Run(e, false, Err(NoAssociation(cd.associationName)))
    else CounterOp(e, d, c.links[cd.associationName], cd.counterName, op)
  }

  /** The hooks of every registered cache, in registration order, stopping at the first error. */
  function HooksEffect(e: Env, d: Decls, c: Child, cds: seq<CacheDef>, op: Op): Effect
    decreases |cds|
  {
    if cds == [] then Effect(e, Ok(()))
    else
      var run := HookRun(e, d, c, cds[0], op);
      if run.outcome.Err? then Effect(run.env, run.outcome)
      else HooksEffect(run.env, d, c, cds[1..], op)
  }

  /** `after_create`: the row exists once every hook has succeeded. */
  function Create(w: World, s: Setup, c: Child): After {
    var eff := HooksEffect(w.env, s.d, c, CachesOf(s, c.typeName), Increment);
    After(World(eff.env, if eff.outcome.Ok? then w.children + [c] else w.children), eff.outcome)
  }

  function Without(cs: seq<Child>, i: nat): seq<Child>
    requires i < |cs|
  {
    cs[..i] + cs[i + 1..]
  }

  /** `destroy`: a type with discard has no `after_destroy` hook; otherwise the hooks decrement. */
  function Destroy(w: World, s: Setup, i: nat): After
    requires i < |w.children|
  {
    var c := w.children[i];
    if c.typeName in s.discardable then After(World(w.env, Without(w.children, i)), Ok(()))
    else
      var eff := HooksEffect(w.env, s.d, c, CachesOf(s, c.typeName), Decrement);
      After(World(eff.env, if eff.outcome.Ok? then Without(w.children, i) else w.children), eff.outcome)
  }

  /**
   `discard`: only a type with discard has it; a discarded row is left alone. The row
   is saved as discarded before the after-hooks decrement, so it stays discarded when a hook fails.
   */
  function Discard(w: World, s: Setup, i: nat): After
    requires i < |w.children|
  {
    var c := w.children[i];
    if c.typeName !in s.discardable then After(w, Err(NoDiscard))
    else if c.discarded then After(w, Ok(()))
    else
      var eff := HooksEffect(w.env, s.d, c, CachesOf(s, c.typeName), Decrement);
      After(World(eff.env, w.children[i := c.(discarded := true)]), eff.outcome)
  }

  /** `undiscard`: the mirror of `discard`; the row is saved as kept, then the hooks increment. */
  function Undiscard(w: World, s: Setup, i: nat): After
    requires i < |w.children|
  {
    var c := w.children[i];
    if c.typeName !in s.discardable then After(w, Err(NoDiscard))
    else if !c.discarded then After(w, Ok(()))
    else
      var eff := HooksEffect(w.env, s.d, c, CachesOf(s, c.typeName), Increment);
      After(World(eff.env, w.children[i := c.(discarded := false)]), eff.outcome)
  }

  // ---------------------------------------------------------------- the cache invariant

  /** The parent's counter accessor exists and does not recompute lazily. */
  ghost predicate PlainCounter(d: Decls, p: Record, counterName: string) {
    (p.typeName, counterName) in d.accessors && d.accessors[(p.typeName, counterName)].lazyLogic.None?
  }

  /** `p`'s counter for `cd` equals the number of its active children of type `t`. */
  ghost predicate Synced(w: World, s: Setup, t: string, cd: CacheDef, p: Record) {
    Get(w.env.counts, CounterKey(s.d.inflector, p, cd.counterName)).GetOr(0)
      == ActiveCount(w.children, t, cd.associationName, p, t in s.discardable)
  }

  /** What the cache invariant needs of a child about to fire its one hook. */
  ghost predicate HookReady(w: World, s: Setup, c: Child, cd: CacheDef, p: Record) {
    TestBackend(w.env) && CachesOf(s, c.typeName) == [cd] && PlainCounter(s.d, p, cd.counterName) &&
    (cd.associationName in c.links ==> Distinguishable(s.d.inflector, c.links[cd.associationName], p))
  }

  /**
   The one hook of `c` shifts `p`'s counter by `delta` exactly when `c` belongs to `p`
   and leaves it alone otherwise; when it fails nothing changes.
   */
  lemma HookShift(e: Env, d: Decls, c: Child, cd: CacheDef, op: Op, p: Record, delta: int)
    requires TestBackend(e) && PlainCounter(d, p, cd.counterName)
    requires cd.associationName in c.links ==> Distinguishable(d.inflector, c.links[cd.associationName], p)
    requires (op == Increment && delta == 1) || (op == Decrement && delta == -1)
    ensures var eff := HooksEffect(e, d, c, [cd], op);
            var key := CounterKey(d.inflector, p, cd.counterName);
            TestBackend(eff.env) &&
            (eff.outcome.Err? ==> eff.env.counts == e.counts) &&
            (Linked(c, cd.associationName, p) ==> eff.outcome.Ok?) &&
            Get(eff.env.counts, key).GetOr(0)
              == Get(e.counts, key).GetOr(0) + (if eff.outcome.Ok? && Linked(c, cd.associationName, p) then delta else 0)
  {
    var run := HookRun(e, d, c, cd, op);
    assert HooksEffect(e, d, c, [cd], op) == Effect(run.env, run.outcome);
    var key := CounterKey(d.inflector, p, cd.counterName);
    if cd.associationName in c.links {
      var q := c.links[cd.associationName];
      if (q.typeName, cd.counterName) in d.accessors {
        CounterOpOnTestBackend(e, d, q, cd.counterName, op);
        var kq := CounterKey(d.inflector, q, cd.counterName);
        var lazy := LazyValue(d, q, d.accessors[(q.typeName, cd.counterName)]);
        var start := TestOpened(e.counts, kq, lazy);
        if q == p {
          assert start == Init(e.counts, key);
        } else {
          KeysDiffer(d.inflector, q, p, cd.counterName);
          assert Get(start, key) == Get(e.counts, key);
        }
      }
    }
  }

  /**
   A hook writes the counter key of the parent its association leads to and no other
   key; without that association it writes nothing.
   */
  lemma HookFrame(e: Env, d: Decls, c: Child, cd: CacheDef, op: Op)
    requires TestBackend(e)
    ensures var eff := HooksEffect(e, d, c, [cd], op);
            (cd.associationName in c.links ==>
               OthersAgree(e.counts, eff.env.counts, CounterKey(d.inflector, c.links[cd.associationName], cd.counterName))) &&
            (cd.associationName !in c.links ==> eff.env == e && eff.outcome == Err(NoAssociation(cd.associationName)))
  {
    var run := HookRun(e, d, c, cd, op);
    assert HooksEffect(e, d, c, [cd], op) == Effect(run.env, run.outcome);
    if cd.associationName in c.links {
      var q := c.links[cd.associationName];
      if (q.typeName, cd.counterName) in d.accessors {
        CounterOpOnTestBackend(e, d, q, cd.counterName, op);
      }
    }
  }

  lemma CreatePreservesSync(w: World, s: Setup, c: Child, cd: CacheDef, p: Record)
    requires HookReady(w, s, c, cd, p) && !c.discarded
    requires Synced(w, s, c.typeName, cd, p)
    ensures Synced(Create(w, s, c).world, s, c.typeName, cd, p)
  {
    HookShift(w.env, s.d, c, cd, Increment, p, 1);
    CountAppend(w.children, c, c.typeName, cd.associationName, p, c.typeName in s.discardable);
  }

  lemma DiscardKeptPreservesSync(w: World, s: Setup, i: nat, cd: CacheDef, p: Record)
    requires i < |w.children| && HookReady(w, s, w.children[i], cd, p)
    requires Synced(w, s, w.children[i].typeName, cd, p)
    ensures Synced(Discard(w, s, i).world, s, w.children[i].typeName, cd, p)
  {
    var c := w.children[i];
    if c.typeName in s.discardable && !c.discarded {
      HookShift(w.env, s.d, c, cd, Decrement, p, -1);
      CountUpdate(w.children, i, c.(discarded := true), c.typeName, cd.associationName, p, true);
    }
  }

  lemma UndiscardPreservesSync(w: World, s: Setup, i: nat, cd: CacheDef, p: Record)
    requires i < |w.children| && HookReady(w, s, w.children[i], cd, p)
    requires Synced(w, s, w.children[i].typeName, cd, p)
    ensures Synced(Undiscard(w, s, i).world, s, w.children[i].typeName, cd, p)
  {
    var c := w.children[i];
    if c.typeName in s.discardable && c.discarded {
      HookShift(w.env, s.d, c, cd, Increment, p, 1);
      CountUpdate(w.children, i, c.(discarded := false), c.typeName, cd.associationName, p, true);
    }
  }

  /** Destroying a child of a type without discard preserves the cache. */
  lemma DestroyPreservesSync(w: World, s: Setup, i: nat, cd: CacheDef, p: Record)
    requires i < |w.children| && HookReady(w, s, w.children[i], cd, p)
    requires w.children[i].typeName !in s.discardable
    requires Synced(w, s, w.children[i].typeName, cd, p)
    ensures Synced(Destroy(w, s, i).world, s, w.children[i].typeName, cd, p)
  {
    var c := w.children[i];
    HookShift(w.env, s.d, c, cd, Decrement, p, -1);
    CountRemove(w.children, i, c.typeName, cd.associationName, p, false);
  }

  /**
   For a type with discard, destroy leaves the counter untouched: that preserves the
   cache for a discarded child, while a kept child leaves the counter one too high.
   */
  lemma DestroyDiscardableLeavesCounter(w: World, s: Setup, i: nat, cd: CacheDef, p: Record)
    requires i < |w.children|
    requires w.children[i].typeName in s.discardable
    requires Synced(w, s, w.children[i].typeName, cd, p)
    ensures var a := Destroy(w, s, i);
            var c := w.children[i];
            a.outcome.Ok? && a.world.env == w.env &&
            Get(a.world.env.counts, CounterKey(s.d.inflector, p, cd.counterName)).GetOr(0)
              == ActiveCount(a.world.children, c.typeName, cd.associationName, p, true) + Counted(c, c.typeName, cd.associationName, p, true)
  {
    var c := w.children[i];
    CountRemove(w.children, i, c.typeName, cd.associationName, p, true);
  }

  // ---------------------------------------------------------------- reconciliation

  /** `detect`: the first cache registered under `name`. */
  function FindCache(cds: seq<CacheDef>, name: string): (r: Option<CacheDef>)
    ensures r.None? <==> forall i :: 0 <= i < |cds| ==> cds[i].name != name
    ensures r.Some? ==> r.value.name == name
    ensures r.Some? ==> exists i :: 0 <= i < |cds| && cds[i] == r.value && forall j :: 0 <= j < i ==> cds[j].name != name
    decreases |cds|
  {
    if cds == [] then None
    else if cds[0].name == name then Some(cds[0])
    else FindCache(cds[1..], name)
  }

  /**
   Instance reconcile: overwrite the parent's counter with its child count, filtered to
   kept children when the parent responds to `kept` (`keptByParent`) or when the children have discard.
   */
  function ReconcileWith(w: World, s: Setup, c: Child, name: string, keptByParent: bool): Run {
    match FindCache(CachesOf(s, c.typeName), name)
    case None => Run(w.env, false, Err(UnknownCounter(name)))
    case Some(cd) =>
      if cd.associationName !in c.links then Run(w.env, false, Err(NoAssociation(cd.associationName)))
      else
        var p := c.links[cd.associationName];
        var keptOnly := if keptByParent then p.typeName in s.keptResponders else c.typeName in s.discardable;
        var n := ActiveCount(w.children, c.typeName, cd.associationName, p, keptOnly);
        CounterOp(w.env, s.d, p, cd.counterName, Change(n))
  }

  /** As written: the kept filter applies when the PARENT record responds to `kept`. */
  function ReconcileChildAsWritten(w: World, s: Setup, c: Child, name: string): Run {
    ReconcileWith(w, s, c, name, true)
  }

  /** As intended: the kept filter applies when the children have discard, matching the hooks. */
  function ReconcileChild(w: World, s: Setup, c: Child, name: string): Run {
    ReconcileWith(w, s, c, name, false)
  }

  /** A parent type without `kept`, a child type with discard and one discarded child. */
  function WitnessSetup(): Setup {
    var cn := "fancy_weapon_counter";
    Setup(Decls(Inflector((x: string) => x, (x: string) => x), (r: Record, m: string) => 0, {}, map[], map[("Hero", cn) := Accessor(cn, None)], map[]),
          map["Weapon" := [CacheDef("weapons", cn, "hero")]], {"Weapon"}, {})
  }

  function WitnessWorld(): World {
    World(Env(map[], Some("test"), None), [Child("Weapon", 1, map["hero" := Record("Hero", Some(1))], true)])
  }

  /**
   The counter is in sync (0: the only child is discarded), yet reconcile as written
   counts the discarded child and breaks the sync; the intended reconcile keeps it.
   */
  lemma ReconcileAsWrittenCountsDiscarded()
    ensures var w, s := WitnessWorld(), WitnessSetup();
            var c, cd, p := w.children[0], CachesOf(s, "Weapon")[0], Record("Hero", Some(1));
            Synced(w, s, "Weapon", cd, p) &&
            !Synced(World(ReconcileChildAsWritten(w, s, c, "weapons").env, w.children), s, "Weapon", cd, p) &&
            Synced(World(ReconcileChild(w, s, c, "weapons").env, w.children), s, "Weapon", cd, p)
  {
    var w, s := WitnessWorld(), WitnessSetup();
    var c, cd, p := w.children[0], CachesOf(s, "Weapon")[0], Record("Hero", Some(1));
    var key := CounterKey(s.d.inflector, p, cd.counterName);
    assert ActiveCount(w.children, "Weapon", "hero", p, true) == 0 by {
      assert w.children[..0] == [];
    }
    assert ActiveCount(w.children, "Weapon", "hero", p, false) == 1 by {
      assert w.children[..0] == [];
    }
    CounterOpOnTestBackend(w.env, s.d, p, cd.counterName, Change(1));
    CounterOpOnTestBackend(w.env, s.d, p, cd.counterName, Change(0));
  }

  /** What reconciling `c` under `name` needs on the in-memory backend. */
  ghost predicate ChildReconcilable(w: World, s: Setup, c: Child, name: string) {
    TestBackend(w.env) &&
    FindCache(CachesOf(s, c.typeName), name).Some? &&
    FindCache(CachesOf(s, c.typeName), name).value.associationName in c.links &&
    (c.links[FindCache(CachesOf(s, c.typeName), name).value.associationName].typeName,
     FindCache(CachesOf(s, c.typeName), name).value.counterName) in s.d.accessors
  }

  function ParentOf(s: Setup, c: Child, name: string): Record
    requires FindCache(CachesOf(s, c.typeName), name).Some?
    requires FindCache(CachesOf(s, c.typeName), name).value.associationName in c.links
  {
    c.links[FindCache(CachesOf(s, c.typeName), name).value.associationName]
  }

  /** Reconcile succeeds, restores the cache for `c`'s parent and writes no other key. */
  lemma ReconcileRestoresSync(w: World, s: Setup, c: Child, name: string)
    requires ChildReconcilable(w, s, c, name)
    ensures var cd := FindCache(CachesOf(s, c.typeName), name).value;
            var p := ParentOf(s, c, name);
            var run := ReconcileChild(w, s, c, name);
            run.outcome.Ok? && TestBackend(run.env) && run.env.memo == Some(Test) && run.env.adapter == w.env.adapter &&
            run.env.counts == w.env.counts[CounterKey(s.d.inflector, p, cd.counterName) :=
                                           ActiveCount(w.children, c.typeName, cd.associationName, p, c.typeName in s.discardable)] &&
            Synced(World(run.env, w.children), s, c.typeName, cd, p)
  {
    var cd := FindCache(CachesOf(s, c.typeName), name).value;
    var p := ParentOf(s, c, name);
    var n := ActiveCount(w.children, c.typeName, cd.associationName, p, c.typeName in s.discardable);
    CounterOpOnTestBackend(w.env, s.d, p, cd.counterName, Change(n));
    var key := CounterKey(s.d.inflector, p, cd.counterName);
    var lazy := LazyValue(s.d, p, s.d.accessors[(p.typeName, cd.counterName)]);
    assert TestOpened(w.env.counts, key, lazy)[key := n] == w.env.counts[key := n];
  }

  /** Reconciling twice with no child change in between leaves the state of reconciling once. */
  lemma ReconcileIdempotent(w: World, s: Setup, c: Child, name: string)
    requires ChildReconcilable(w, s, c, name)
    ensures var once := ReconcileChild(w, s, c, name);
            ReconcileChild(World(once.env, w.children), s, c, name) == once
  {
    var once := ReconcileChild(w, s, c, name);
    ReconcileRestoresSync(w, s, c, name);
    ReconcileRestoresSync(World(once.env, w.children), s, c, name);
    var twice := ReconcileChild(World(once.env, w.children), s, c, name);
    assert twice.env == once.env;
    var cd := FindCache(CachesOf(s, c.typeName), name).value;
    var p := ParentOf(s, c, name);
    assert once.resolved == twice.resolved by {
      CounterOpOnTestBackend(w.env, s.d, p, cd.counterName, Change(0));
    }
  }

  /** Class reconcile: reconcile every child in scope, stopping at the first error. */
  function ReconcileChildren(w: World, s: Setup, scope: seq<Child>, name: string): Effect
    decreases |scope|
  {
    if scope == [] then Effect(w.env, Ok(()))
    else
      var run := ReconcileChild(w, s, scope[0], name);
      if run.outcome.Err? then Effect(run.env, run.outcome)
      else ReconcileChildren(World(run.env, w.children), s, scope[1..], name)
  }

  /** The class-level lookup raises before any child is visited; otherwise every child in scope is reconciled. */
  function BulkReconcileEffect(w: World, s: Setup, t: string, scope: seq<Child>, name: string): Effect {
    if FindCache(CachesOf(s, t), name).None? then Effect(w.env, Err(UnknownCounter(name)))
    else ReconcileChildren(w, s, scope, name)
  }

  lemma ReconcileChildrenUnfold(w: World, s: Setup, scope: seq<Child>, name: string)
    requires scope != []
    ensures var run := ReconcileChild(w, s, scope[0], name);
            ReconcileChildren(w, s, scope, name) ==
              if run.outcome.Err? then Effect(run.env, run.outcome)
              else ReconcileChildren(World(run.env, w.children), s, scope[1..], name)
  {
  }

  /** The children of type `t`, in row order: the default scope `all`. */
  function OfType(cs: seq<Child>, t: string): (r: seq<Child>)
    ensures forall c :: c in r <==> c in cs && c.typeName == t
    decreases |cs|
  {
    if cs == [] then []
    else (if cs[0].typeName == t then [cs[0]] else []) + OfType(cs[1..], t)
  }

  /** Every child in scope can be reconciled, and the parents they lead to are mutually distinguishable. */
  ghost predicate ScopeReady(w: World, s: Setup, t: string, scope: seq<Child>, name: string) {
    (forall i :: 0 <= i < |scope| ==> scope[i].typeName == t && ChildReconcilable(w, s, scope[i], name)) &&
    (forall i, j :: 0 <= i < |scope| && 0 <= j < |scope| ==>
       Distinguishable(s.d.inflector, ParentOf(s, scope[i], name), ParentOf(s, scope[j], name)))
  }

  lemma ScopeReadyTail(w: World, w2: World, s: Setup, t: string, scope: seq<Child>, name: string)
    requires scope != [] && ScopeReady(w, s, t, scope, name) && TestBackend(w2.env)
    ensures ScopeReady(w2, s, t, scope[1..], name)
  {
    forall i | 0 <= i < |scope[1..]|
      ensures scope[1..][i].typeName == t && ChildReconcilable(w2, s, scope[1..][i], name)
    {
      assert scope[1..][i] == scope[i + 1];
    }
    forall i, j | 0 <= i < |scope[1..]| && 0 <= j < |scope[1..]|
      ensures Distinguishable(s.d.inflector, ParentOf(s, scope[1..][i], name), ParentOf(s, scope[1..][j], name))
    {
      assert scope[1..][i] == scope[i + 1] && scope[1..][j] == scope[j + 1];
    }
  }

  /** `p` is the parent of no child in scope, and the inflection tells it apart from each of theirs. */
  ghost predicate Unreferenced(s: Setup, scope: seq<Child>, name: string, p: Record)
    requires forall i :: 0 <= i < |scope| ==>
               FindCache(CachesOf(s, scope[i].typeName), name).Some? &&
               FindCache(CachesOf(s, scope[i].typeName), name).value.associationName in scope[i].links
  {
    forall i :: 0 <= i < |scope| ==>
      ParentOf(s, scope[i], name) != p && Distinguishable(s.d.inflector, ParentOf(s, scope[i], name), p)
  }

  /** Bulk reconcile succeeds and leaves the counter of a parent the scope does not reference unchanged. */
  lemma {:induction false} BulkReconcileLeavesOthers(w: World, s: Setup, t: string, scope: seq<Child>, name: string, cd: CacheDef, p: Record)
    requires TestBackend(w.env) && ScopeReady(w, s, t, scope, name)
    requires FindCache(CachesOf(s, t), name) == Some(cd)
    requires Unreferenced(s, scope, name, p)
    ensures var eff := ReconcileChildren(w, s, scope, name);
            eff.outcome.Ok? && TestBackend(eff.env) &&
            Get(eff.env.counts, CounterKey(s.d.inflector, p, cd.counterName))
              == Get(w.env.counts, CounterKey(s.d.inflector, p, cd.counterName))
    decreases |scope|
  {
    if scope != [] {
      var c := scope[0];
      var q := ParentOf(s, c, name);
      ReconcileRestoresSync(w, s, c, name);
      var run := ReconcileChild(w, s, c, name);
      var w1 := World(run.env, w.children);
      ScopeReadyTail(w, w1, s, t, scope, name);
      assert Unreferenced(s, scope[1..], name, p) by {
        forall j | 0 <= j < |scope[1..]|
          ensures ParentOf(s, scope[1..][j], name) != p && Distinguishable(s.d.inflector, ParentOf(s, scope[1..][j], name), p)
        {
          assert scope[1..][j] == scope[j + 1];
        }
      }
      BulkReconcileLeavesOthers(w1, s, t, scope[1..], name, cd, p);
      assert ReconcileChildren(w, s, scope, name) == ReconcileChildren(w1, s, scope[1..], name);
      KeysDiffer(s.d.inflector, q, p, cd.counterName);
    }
  }

  /** Bulk reconcile succeeds and leaves the parent of every child in scope in sync. */
  lemma {:induction false} BulkReconcileSyncs(w: World, s: Setup, t: string, scope: seq<Child>, name: string, cd: CacheDef, i: nat)
    requires TestBackend(w.env) && ScopeReady(w, s, t, scope, name)
    requires FindCache(CachesOf(s, t), name) == Some(cd)
    requires i < |scope|
    ensures var eff := ReconcileChildren(w, s, scope, name);
            eff.outcome.Ok? && Synced(World(eff.env, w.children), s, t, cd, ParentOf(s, scope[i], name))
    decreases |scope|
  {
    var c := scope[0];
    var q := ParentOf(s, c, name);
    ReconcileRestoresSync(w, s, c, name);
    var run := ReconcileChild(w, s, c, name);
    var w1 := World(run.env, w.children);
    ScopeReadyTail(w, w1, s, t, scope, name);
    assert ReconcileChildren(w, s, scope, name) == ReconcileChildren(w1, s, scope[1..], name);
    if i > 0 {
      assert scope[1..][i - 1] == scope[i];
      BulkReconcileSyncs(w1, s, t, scope[1..], name, cd, i - 1);
    } else if j :| 0 <= j < |scope[1..]| && ParentOf(s, scope[1..][j], name) == q {
      BulkReconcileSyncs(w1, s, t, scope[1..], name, cd, j);
    } else {
      assert Unreferenced(s, scope[1..], name, q) by {
        forall j | 0 <= j < |scope[1..]|
          ensures ParentOf(s, scope[1..][j], name) != q && Distinguishable(s.d.inflector, ParentOf(s, scope[1..][j], name), q)
        {
          assert scope[1..][j] == scope[j + 1];
        }
      }
      BulkReconcileLeavesOthers(w1, s, t, scope[1..], name, cd, q);
    }
  }

  // ---------------------------------------------------------------- the mixin's state

  class Cacheable {
    /** The parent side whose counters the caches keep. */
    const parentSide: Countable
    /** The child types with discard (`respond_to?(:after_discard)`). */
    const discardable: set<string>
    /** The parent types whose records respond to `kept`. */
    const keptResponders: set<string>

    /** `fancy_counter_caches` of each child type. */
    var caches: map<string, seq<CacheDef>>
    /** The child rows. */
    var children: seq<Child>

    constructor (parentSide: Countable, discardable: set<string>, keptResponders: set<string>)
      ensures this.parentSide == parentSide && this.discardable == discardable && this.keptResponders == keptResponders
      ensures caches == map[] && children == []
    {
      this.parentSide := parentSide;
      this.discardable := discardable;
      this.keptResponders := keptResponders;
      caches := map[];
      children := [];
    }

    function Declared(): Setup
      reads this, parentSide
    {
      Setup(parentSide.Declared(), caches, discardable, keptResponders)
    }

    ghost function Snapshot(): World
      reads this, parentSide, parentSide.store, parentSide.config
    {
      World(parentSide.Snapshot(), children)
    }

    /** `fancy_counter_cache`: register the cache; its hooks are the events below. */
    method FancyCounterCache(t: string, name: string, on: string)
      modifies this`caches
      ensures caches == old(caches)[t := old(CachesOf(Declared(), t)) + [CacheDef(name, CounterMethodName(parentSide.inflector, name), on)]]
    {
      caches := caches[t := CachesOf(Declared(), t) + [CacheDef(name, CounterMethodName(parentSide.inflector, name), on)]];
    }

    /** The hooks of `c`'s type, applying `op` to each parent counter in registration order. */
    method RunHooks(c: Child, op: Op) returns (r: Result<()>)
      modifies parentSide.store, parentSide.config
      ensures var eff := HooksEffect(old(parentSide.Snapshot()), Declared().d, c, CachesOf(Declared(), c.typeName), op);
              parentSide.Snapshot() == eff.env && r == eff.outcome
    {
      var cds := CachesOf(Declared(), c.typeName);
      var i := 0;
      while i < |cds|
        invariant 0 <= i <= |cds|
        invariant HooksEffect(old(parentSide.Snapshot()), Declared().d, c, cds, op)
               == HooksEffect(parentSide.Snapshot(), Declared().d, c, cds[i..], op)
      {
        var cd := cds[i];
        assert cds[i..][0] == cd && cds[i..][1..] == cds[i + 1..];
        if cd.associationName !in c.links {
          return Err(NoAssociation(cd.associationName));
        }
        r := parentSide.Apply(c.links[cd.associationName], cd.counterName, op);
        if r.Err? {
          return;
        }
        i := i + 1;
      }
      r := Ok(());
    }

    method CreateChild(c: Child) returns (r: Result<()>)
      modifies this`children, parentSide.store, parentSide.config
      ensures var a := Create(old(Snapshot()), old(Declared()), c);
              Snapshot() == a.world && r == a.outcome
    {
      r := RunHooks(c, Increment);
      if r.Ok? {
        children := children + [c];
      }
    }

    method DestroyChild(i: nat) returns (r: Result<()>)
      requires i < |children|
      modifies this`children, parentSide.store, parentSide.config
      ensures var a := Destroy(old(Snapshot()), old(Declared()), i);
              Snapshot() == a.world && r == a.outcome
    {
      var c := children[i];
      if c.typeName in discardable {
        children := Without(children, i);
        return Ok(());
      }
      r := RunHooks(c, Decrement);
      if r.Ok? {
        children := Without(children, i);
      }
    }

    method DiscardChild(i: nat) returns (r: Result<()>)
      requires i < |children|
      modifies this`children, parentSide.store, parentSide.config
      ensures var a := Discard(old(Snapshot()), old(Declared()), i);
              Snapshot() == a.world && r == a.outcome
    {
      var c := children[i];
      if c.typeName !in discardable {
        return Err(NoDiscard);
      }
      if c.discarded {
        return Ok(());
      }
      children := children[i := c.(discarded := true)];
      r := RunHooks(c, Decrement);
    }

    method UndiscardChild(i: nat) returns (r: Result<()>)
      requires i < |children|
      modifies this`children, parentSide.store, parentSide.config
      ensures var a := Undiscard(old(Snapshot()), old(Declared()), i);
              Snapshot() == a.world && r == a.outcome
    {
      var c := children[i];
      if c.typeName !in discardable {
        return Err(NoDiscard);
      }
      if !c.discarded {
        return Ok(());
      }
      children := children[i := c.(discarded := false)];
      r := RunHooks(c, Increment);
    }

    /** Instance `fancy_counter_cache_reconcile`. */
    method Reconcile(c: Child, name: string) returns (r: Result<()>)
      modifies parentSide.store, parentSide.config
      ensures var run := ReconcileChild(old(Snapshot()), Declared(), c, name);
              parentSide.Snapshot() == run.env && r == run.outcome
    {
      var cd := FindCache(CachesOf(Declared(), c.typeName), name);
      if cd.None? {
        return Err(UnknownCounter(name));
      }
      if cd.value.associationName !in c.links {
        return Err(NoAssociation(cd.value.associationName));
      }
      var p := c.links[cd.value.associationName];
      var n := ActiveCount(children, c.typeName, cd.value.associationName, p, c.typeName in discardable);
      r := parentSide.Apply(p, cd.value.counterName, Change(n));
    }

    /** Class `fancy_counter_cache_reconcile`: every child in scope (all children of type `t` by default). */
    method ReconcileAll(t: string, name: string, scope: Option<seq<Child>>) returns (r: Result<()>)
      modifies parentSide.store, parentSide.config
      ensures var eff := BulkReconcileEffect(old(Snapshot()), Declared(), t, scope.GetOr(OfType(children, t)), name);
              parentSide.Snapshot() == eff.env && r == eff.outcome
    {
      if FindCache(CachesOf(Declared(), t), name).None? {
        return Err(UnknownCounter(name));
      }
      r := ReconcileRows(scope.GetOr(OfType(children, t)), name);
    }

    /** The loop of the class reconcile over the children in scope. */
    method ReconcileRows(rows: seq<Child>, name: string) returns (r: Result<()>)
      modifies parentSide.store, parentSide.config
      ensures var eff := ReconcileChildren(old(Snapshot()), Declared(), rows, name);
              parentSide.Snapshot() == eff.env && r == eff.outcome
    {
      var i := 0;
      while i < |rows|
        invariant 0 <= i <= |rows|
        invariant ReconcileChildren(old(Snapshot()), Declared(), rows, name)
               == ReconcileChildren(Snapshot(), Declared(), rows[i..], name)
      {
        r := ReconcileNext(rows, i, name);
        if r.Err? {
          return;
        }
        i := i + 1;
      }
      r := Ok(());
    }

    /** One record of the class reconcile: its effect, and the rest of the fold after it. */
    method ReconcileNext(rows: seq<Child>, i: nat, name: string) returns (r: Result<()>)
      requires i < |rows|
      modifies parentSide.store, parentSide.config
      ensures ReconcileChildren(old(Snapshot()), Declared(), rows[i..], name)
           == if r.Err? then Effect(parentSide.Snapshot(), r) else ReconcileChildren(Snapshot(), Declared(), rows[i + 1..], name)
    {
      ghost var before := Snapshot();
      r := Reconcile(rows[i], name);
      ghost var run := ReconcileChild(before, Declared(), rows[i], name);
      assert Snapshot() == World(run.env, before.children);
      assert rows[i..][0] == rows[i] && rows[i..][1..] == rows[i + 1..];
      ReconcileChildrenUnfold(before, Declared(), rows[i..], name);
    }
  }
}

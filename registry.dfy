/** Specification of lazy module registration (`has_module`, `init_module`,
    `req_module` in src/core/module.rs and core/src/module.rs; `has`, `init`, `req`
    in src/framework.rs). A module's init hook is described by the list of things
    it does to the framework, in order. */
module Registry {
  import opened Wrappers
  import opened CoreTypes
  import Macros
  import Runtime

  /** One step of an init hook. */
  datatype Action =
    | Require(dep: Kind, adds: seq<Item>)   // `fw.req_module::<Dep>()?` then mutate the dependency through `&mut`
    | AddOwn(item: Item)                    // mutate the module's own fields (`&mut self` hooks only)
    | Enqueue(prep: Prep)                   // `rt!`: push a runtime closure owned by this module
    | Abort(msg: string)                    // return `Err(msg)` from the hook

  /** The modules of a build: each kind's hook, its `Default` value, and a rank
      that orders dependencies. `flavor` picks the snapshot's error wording. */
  datatype Catalog = Catalog(
    hooks: Kind -> seq<Action>,
    defaults: Kind -> ModVal,
    rank: Kind -> nat,
    flavor: Flavor)

  /** A hook only requires modules of strictly lower rank: the dependency graph is
      acyclic. The code has no cycle check (a module is stored only after its hook
      returns), so a cycle would recurse without end; the model assumes none. */
  ghost predicate WellRanked(cat: Catalog)
  {
    forall k: Kind, i :: 0 <= i < |cat.hooks(k)| && cat.hooks(k)[i].Require? ==>
      cat.rank(cat.hooks(k)[i].dep) < cat.rank(k)
  }

  /** Hooks that never touch their own module: the `&self` hooks of core/src/module.rs. */
  ghost predicate ReadOnlyHooks(cat: Catalog)
  {
    forall k: Kind, i :: 0 <= i < |cat.hooks(k)| ==> !cat.hooks(k)[i].AddOwn?
  }

  /** The framework as registration sees it: the module registry and the runtime queue. */
  datatype Fw = Fw(modules: map<Kind, ModVal>, runtime: seq<Task>)

  datatype Step = Step(fw: Fw, out: Outcome<Error>)

  datatype HookRun = HookRun(fw: Fw, own: ModVal, out: Outcome<Error>)

  /** Running actions i.. of k's hook on the instance `own` (not yet stored). An
      error stops the hook; whatever it did before stays done. */
  function Hook(cat: Catalog, fw: Fw, k: Kind, own: ModVal, i: nat): (r: HookRun)
    requires WellRanked(cat) && i <= |cat.hooks(k)|
    decreases cat.rank(k), 0, |cat.hooks(k)| - i
  {
    if i == |cat.hooks(k)| then HookRun(fw, own, Pass)
    else
      match cat.hooks(k)[i]
      case Require(dep, adds) =>
        var s := Req(cat, fw, dep);
        if s.out.Fail? then HookRun(s.fw, own, s.out)
        else Hook(cat, Fw(s.fw.modules[dep := Extend(s.fw.modules[dep], adds)], s.fw.runtime), k, own, i + 1)
      case AddOwn(item) => Hook(cat, fw, k, Extend(own, [item]), i + 1)
      case Enqueue(prep) => Hook(cat, Fw(fw.modules, Macros.Rt(fw.runtime, k, prep)), k, own, i + 1)
      case Abort(msg) => HookRun(fw, own, Fail(Failed(msg)))
  }

  /** `init_module(m)`: run the hook, and only if it succeeds store the instance under k. */
  function Init(cat: Catalog, fw: Fw, k: Kind, m: ModVal): (r: Step)
    requires WellRanked(cat)
    ensures r.out.Pass? ==> k in r.fw.modules
    decreases cat.rank(k), 1, 0
  {
    var h := Hook(cat, fw, k, m, 0);
    if h.out.Fail? then Step(h.fw, h.out)
    else Step(Fw(h.fw.modules[k := h.own], h.fw.runtime), Pass)
  }

  /** `req_module::<K>()`: initialise the default instance when K is absent, then borrow it. */
  function Req(cat: Catalog, fw: Fw, k: Kind): (r: Step)
    requires WellRanked(cat)
    ensures r.out.Pass? ==> k in r.fw.modules
    decreases cat.rank(k), 2, 0
  {
    if k in fw.modules then Step(fw, Pass)
    else
      var s := Init(cat, fw, k, cat.defaults(k));
      if s.out.Fail? then s
      else Step(s.fw, Borrowed(s.fw.modules, k, cat.flavor))
  }

  /** The outcome of `borrow_mut::<K>()` / `get_mut` on a registry. */
  function Borrowed(modules: map<Kind, ModVal>, k: Kind, f: Flavor): (o: Outcome<Error>)
    ensures o.Pass? <==> k in modules
    ensures o.Fail? ==> o.error == Missing(f, k)
  {
    if k in modules then Pass else Fail(Missing(f, k))
  }

  /** The items a hook adds to its own instance, in order. */
  function OwnItems(actions: seq<Action>): (r: seq<Item>)
    ensures (forall i :: 0 <= i < |actions| ==> !actions[i].AddOwn?) ==> r == []
  {
    if |actions| == 0 then []
    else (if actions[0].AddOwn? then [actions[0].item] else []) + OwnItems(actions[1..])
  }

  /** j's entry is the same in both registries (both absent, or both present and equal). */
  predicate SameEntry(a: map<Kind, ModVal>, b: map<Kind, ModVal>, j: Kind)
  {
    (j in a <==> j in b) && (j in a ==> a[j] == b[j])
  }

  // ---------------------------------------------------------------------------
  // Frame: registration of k only touches k and modules ranked below it.

  lemma {:induction false} HookFrame(cat: Catalog, fw: Fw, k: Kind, own: ModVal, i: nat, j: Kind)
    requires WellRanked(cat) && i <= |cat.hooks(k)|
    requires cat.rank(j) >= cat.rank(k)
    ensures SameEntry(fw.modules, Hook(cat, fw, k, own, i).fw.modules, j)
    decreases cat.rank(k), 0, |cat.hooks(k)| - i
  {
    if i < |cat.hooks(k)| {
      match cat.hooks(k)[i]
      case Require(dep, adds) =>
        ReqFrame(cat, fw, dep, j);
        var s := Req(cat, fw, dep);
        if s.out.Pass? {
          HookFrame(cat, Fw(s.fw.modules[dep := Extend(s.fw.modules[dep], adds)], s.fw.runtime), k, own, i + 1, j);
        }
      case AddOwn(item) => HookFrame(cat, fw, k, Extend(own, [item]), i + 1, j);
      case Enqueue(prep) => HookFrame(cat, Fw(fw.modules, Macros.Rt(fw.runtime, k, prep)), k, own, i + 1, j);
      case Abort(msg) =>
    }
  }

  lemma {:induction false} InitFrame(cat: Catalog, fw: Fw, k: Kind, m: ModVal, j: Kind)
    requires WellRanked(cat) && j != k && cat.rank(j) >= cat.rank(k)
    ensures SameEntry(fw.modules, Init(cat, fw, k, m).fw.modules, j)
    decreases cat.rank(k), 1, 0
  {
    HookFrame(cat, fw, k, m, 0, j);
  }

  lemma {:induction false} ReqFrame(cat: Catalog, fw: Fw, k: Kind, j: Kind)
    requires WellRanked(cat) && j != k && cat.rank(j) >= cat.rank(k)
    ensures SameEntry(fw.modules, Req(cat, fw, k).fw.modules, j)
    decreases cat.rank(k), 2, 0
  {
    if k !in fw.modules {
      InitFrame(cat, fw, k, cat.defaults(k), j);
    }
  }

  /** While k's hook runs, k is still absent when it was absent before: `has_module::<K>()`
      is false inside the hook, and a hook error leaves k unregistered. */
  lemma NotStoredDuringHook(cat: Catalog, fw: Fw, k: Kind, m: ModVal)
    requires WellRanked(cat) && k !in fw.modules
    ensures k !in Hook(cat, fw, k, m, 0).fw.modules
    ensures Init(cat, fw, k, m).out.Fail? ==> k !in Init(cat, fw, k, m).fw.modules
  {
    HookFrame(cat, fw, k, m, 0, k);
  }

  // ---------------------------------------------------------------------------
  // Growth: registration never unregisters a module nor drops a queued closure.

  predicate Grows(a: Fw, b: Fw)
  {
    a.modules.Keys <= b.modules.Keys && a.runtime <= b.runtime
  }

  lemma {:induction false} HookGrows(cat: Catalog, fw: Fw, k: Kind, own: ModVal, i: nat)
    requires WellRanked(cat) && i <= |cat.hooks(k)|
    ensures Grows(fw, Hook(cat, fw, k, own, i).fw)
    decreases cat.rank(k), 0, |cat.hooks(k)| - i
  {
    if i < |cat.hooks(k)| {
      match cat.hooks(k)[i]
      case Require(dep, adds) =>
        ReqGrows(cat, fw, dep);
        var s := Req(cat, fw, dep);
        if s.out.Pass? {
          HookGrows(cat, Fw(s.fw.modules[dep := Extend(s.fw.modules[dep], adds)], s.fw.runtime), k, own, i + 1);
        }
      case AddOwn(item) => HookGrows(cat, fw, k, Extend(own, [item]), i + 1);
      case Enqueue(prep) => HookGrows(cat, Fw(fw.modules, Macros.Rt(fw.runtime, k, prep)), k, own, i + 1);
      case Abort(msg) =>
    }
  }

  lemma {:induction false} InitGrows(cat: Catalog, fw: Fw, k: Kind, m: ModVal)
    requires WellRanked(cat)
    ensures Grows(fw, Init(cat, fw, k, m).fw)
    decreases cat.rank(k), 1, 0
  {
    HookGrows(cat, fw, k, m, 0);
  }

  lemma {:induction false} ReqGrows(cat: Catalog, fw: Fw, k: Kind)
    requires WellRanked(cat)
    ensures Grows(fw, Req(cat, fw, k).fw)
    decreases cat.rank(k), 2, 0
  {
    if k !in fw.modules {
      InitGrows(cat, fw, k, cat.defaults(k));
    }
  }

  // ---------------------------------------------------------------------------
  // Edits through `&mut` persist: registration only ever appends to a stored module.

  /** Every module of a is still in b, and its configuration in b extends the one in a. */
  predicate ItemsGrow(a: map<Kind, ModVal>, b: map<Kind, ModVal>)
  {
    forall j :: j in a ==> j in b && a[j].items <= b[j].items
  }

  lemma {:induction false} HookItemsGrow(cat: Catalog, fw: Fw, k: Kind, own: ModVal, i: nat)
    requires WellRanked(cat) && i <= |cat.hooks(k)|
    ensures ItemsGrow(fw.modules, Hook(cat, fw, k, own, i).fw.modules)
    decreases cat.rank(k), 0, |cat.hooks(k)| - i
  {
    if i < |cat.hooks(k)| {
      match cat.hooks(k)[i]
      case Require(dep, adds) =>
        ReqItemsGrow(cat, fw, dep);
        var s := Req(cat, fw, dep);
        if s.out.Pass? {
          HookItemsGrow(cat, Fw(s.fw.modules[dep := Extend(s.fw.modules[dep], adds)], s.fw.runtime), k, own, i + 1);
        }
      case AddOwn(item) => HookItemsGrow(cat, fw, k, Extend(own, [item]), i + 1);
      case Enqueue(prep) => HookItemsGrow(cat, Fw(fw.modules, Macros.Rt(fw.runtime, k, prep)), k, own, i + 1);
      case Abort(msg) =>
    }
  }

  /** `init_module` extends every other module; k itself is (re)placed by the new instance. */
  lemma {:induction false} InitItemsGrow(cat: Catalog, fw: Fw, k: Kind, m: ModVal)
    requires WellRanked(cat)
    ensures ItemsGrow(fw.modules - {k}, Init(cat, fw, k, m).fw.modules)
    decreases cat.rank(k), 1, 0
  {
    HookItemsGrow(cat, fw, k, m, 0);
  }

  /** `req_module` extends every module already registered, k included. */
  lemma {:induction false} ReqItemsGrow(cat: Catalog, fw: Fw, k: Kind)
    requires WellRanked(cat)
    ensures ItemsGrow(fw.modules, Req(cat, fw, k).fw.modules)
    decreases cat.rank(k), 2, 0
  {
    if k !in fw.modules {
      InitItemsGrow(cat, fw, k, cat.defaults(k));
      assert fw.modules - {k} == fw.modules;
    }
  }

  /** A dependent's edit of a dependency through `&mut` (step i of k's hook) is still
      at the front of the dependency's configuration when k's hook has finished. */
  lemma DependentEditKept(cat: Catalog, fw: Fw, k: Kind, own: ModVal, i: nat)
    requires WellRanked(cat) && i < |cat.hooks(k)| && cat.hooks(k)[i].Require?
    ensures var dep := cat.hooks(k)[i].dep;
      var s := Req(cat, fw, dep);
      s.out.Pass? ==>
        dep in Hook(cat, fw, k, own, i).fw.modules &&
        s.fw.modules[dep].items + cat.hooks(k)[i].adds <= Hook(cat, fw, k, own, i).fw.modules[dep].items
  {
    var dep, adds := cat.hooks(k)[i].dep, cat.hooks(k)[i].adds;
    var s := Req(cat, fw, dep);
    if s.out.Pass? {
      var fw' := Fw(s.fw.modules[dep := Extend(s.fw.modules[dep], adds)], s.fw.runtime);
      HookItemsGrow(cat, fw', k, own, i + 1);
      assert Hook(cat, fw, k, own, i) == Hook(cat, fw', k, own, i + 1);
    }
  }

  /** End to end: the value the dependency's runtime closure takes out of the registry
      begins with the dependency's configuration at the time it was required,
      followed by what the dependent added, as long as registration from the end of
      k's hook on only extended stored modules (`ReqItemsGrow`, `HookItemsGrow`,
      `InitItemsGrow` for other kinds). */
  lemma DependentEditReachesClosure(cat: Catalog, fw: Fw, k: Kind, own: ModVal, i: nat,
                                    modules: map<Kind, ModVal>, tasks: seq<Task>, n: nat, f: Flavor)
    requires WellRanked(cat) && i < |cat.hooks(k)| && cat.hooks(k)[i].Require?
    requires Req(cat, fw, cat.hooks(k)[i].dep).out.Pass?
    requires ItemsGrow(Hook(cat, fw, k, own, i).fw.modules, modules)
    requires Runtime.Drainable(modules, tasks) && n < |tasks| && tasks[n].owner == cat.hooks(k)[i].dep
    ensures var dep := cat.hooks(k)[i].dep;
      var taken := Runtime.DrainFrom(f, Runtime.Start(modules), tasks).taken;
      n < |taken| &&
      Req(cat, fw, dep).fw.modules[dep].items + cat.hooks(k)[i].adds <= taken[n].items
  {
    var dep := cat.hooks(k)[i].dep;
    DependentEditKept(cat, fw, k, own, i);
    Runtime.DrainHandsOwnerValues(f, Runtime.Start(modules), tasks, modules);
    assert Runtime.DrainFrom(f, Runtime.Start(modules), tasks).taken == Runtime.OwnerValues(modules, tasks);
    Runtime.OwnerValueAt(modules, tasks, n);
  }

  /** The smallest instance: Q's hook requires R and adds to it, R's hook pushes one
      closure. Requiring Q from an empty framework queues R's closure alone, and
      `run`'s drain hands that closure R's default extended by Q's additions. */
  lemma DependentEditScenario(cat: Catalog, q: Kind, r: Kind, adds: seq<Item>, prep: Prep, f: Flavor)
    requires WellRanked(cat) && q != r
    requires cat.hooks(q) == [Require(r, adds)] && cat.hooks(r) == [Enqueue(prep)] && !prep.PrepFail?
    ensures var s := Req(cat, Fw(map[], []), q);
      s.out.Pass? && s.fw.runtime == [Task(r, prep)] &&
      Runtime.DrainFrom(f, Runtime.Start(s.fw.modules), s.fw.runtime).taken == [Extend(cat.defaults(r), adds)]
  {
    var fw0 := Fw(map[], []);
    var hr := Hook(cat, fw0, r, cat.defaults(r), 0);
    assert hr == Hook(cat, Fw(map[], [Task(r, prep)]), r, cat.defaults(r), 1);
    assert hr == HookRun(Fw(map[], [Task(r, prep)]), cat.defaults(r), Pass);
    var ir := Init(cat, fw0, r, cat.defaults(r));
    assert ir == Step(Fw(map[][r := cat.defaults(r)], [Task(r, prep)]), Pass);
    var sr := Req(cat, fw0, r);
    assert sr == Step(ir.fw, Borrowed(ir.fw.modules, r, cat.flavor));
    assert sr.fw == Fw(map[r := cat.defaults(r)], [Task(r, prep)]) && sr.out.Pass?;
    var fw1 := Fw(map[r := Extend(cat.defaults(r), adds)], [Task(r, prep)]);
    var hq := Hook(cat, fw0, q, cat.defaults(q), 0);
    assert cat.hooks(q)[0] == Require(r, adds);
    assert sr.fw.modules[r := Extend(sr.fw.modules[r], adds)] == fw1.modules;
    assert hq == Hook(cat, fw1, q, cat.defaults(q), 1);
    assert hq == HookRun(fw1, cat.defaults(q), Pass);
    var iq := Init(cat, fw0, q, cat.defaults(q));
    assert iq == Step(Fw(fw1.modules[q := cat.defaults(q)], [Task(r, prep)]), Pass);
    var s := Req(cat, fw0, q);
    assert s == Step(iq.fw, Borrowed(iq.fw.modules, q, cat.flavor));
    assert s.fw == Fw(fw1.modules[q := cat.defaults(q)], [Task(r, prep)]) && s.out.Pass?;
    var d0 := Runtime.Start(s.fw.modules);
    assert Runtime.DrainFrom(f, d0, s.fw.runtime) == Runtime.DrainFrom(f, Runtime.DrainStep(f, d0, Task(r, prep)), []);
  }

  // ---------------------------------------------------------------------------
  // Leaf first: every module a hook requires is registered before the module itself.

  lemma {:induction false} HookDepsPresent(cat: Catalog, fw: Fw, k: Kind, own: ModVal, i: nat)
    requires WellRanked(cat) && i <= |cat.hooks(k)|
    ensures Hook(cat, fw, k, own, i).out.Pass? ==>
      forall n :: i <= n < |cat.hooks(k)| && cat.hooks(k)[n].Require? ==>
        cat.hooks(k)[n].dep in Hook(cat, fw, k, own, i).fw.modules
    decreases |cat.hooks(k)| - i
  {
    if i < |cat.hooks(k)| {
      match cat.hooks(k)[i]
      case Require(dep, adds) =>
        var s := Req(cat, fw, dep);
        if s.out.Pass? {
          var fw' := Fw(s.fw.modules[dep := Extend(s.fw.modules[dep], adds)], s.fw.runtime);
          HookDepsPresent(cat, fw', k, own, i + 1);
          HookGrows(cat, fw', k, own, i + 1);
        }
      case AddOwn(item) => HookDepsPresent(cat, fw, k, Extend(own, [item]), i + 1);
      case Enqueue(prep) => HookDepsPresent(cat, Fw(fw.modules, Macros.Rt(fw.runtime, k, prep)), k, own, i + 1);
      case Abort(msg) =>
    }
  }

  /** A successful `init_module::<K>` on an absent K: at the moment K is stored, every
      module its hook requires is already registered and K itself is not. */
  lemma LeafFirst(cat: Catalog, fw: Fw, k: Kind, m: ModVal)
    requires WellRanked(cat) && k !in fw.modules
    ensures Init(cat, fw, k, m).out.Pass? ==>
      var before := Hook(cat, fw, k, m, 0).fw.modules;
      k !in before &&
      (forall n :: 0 <= n < |cat.hooks(k)| && cat.hooks(k)[n].Require? ==> cat.hooks(k)[n].dep in before) &&
      Init(cat, fw, k, m).fw.modules == before[k := Hook(cat, fw, k, m, 0).own]
  {
    HookDepsPresent(cat, fw, k, m, 0);
    NotStoredDuringHook(cat, fw, k, m);
  }

  // ---------------------------------------------------------------------------
  // What gets stored.

  lemma {:induction false} HookOwn(cat: Catalog, fw: Fw, k: Kind, own: ModVal, i: nat)
    requires WellRanked(cat) && i <= |cat.hooks(k)|
    ensures Hook(cat, fw, k, own, i).out.Pass? ==>
      Hook(cat, fw, k, own, i).own.items == own.items + OwnItems(cat.hooks(k)[i..])
    decreases |cat.hooks(k)| - i
  {
    var hs := cat.hooks(k);
    if i == |hs| {
      assert hs[i..] == [];
    } else {
      assert hs[i..][1..] == hs[i + 1..];
      assert OwnItems(hs[i..]) == (if hs[i].AddOwn? then [hs[i].item] else []) + OwnItems(hs[i + 1..]);
      match hs[i]
      case Require(dep, adds) =>
        var s := Req(cat, fw, dep);
        if s.out.Pass? {
          HookOwn(cat, Fw(s.fw.modules[dep := Extend(s.fw.modules[dep], adds)], s.fw.runtime), k, own, i + 1);
        }
      case AddOwn(item) => HookOwn(cat, fw, k, Extend(own, [item]), i + 1);
      case Enqueue(prep) => HookOwn(cat, Fw(fw.modules, Macros.Rt(fw.runtime, k, prep)), k, own, i + 1);
      case Abort(msg) =>
    }
  }

  /** `init_module(m)` stores m as its own hook left it, whether or not K was present
      before (a present instance is overwritten and its hook runs again). */
  lemma InitStores(cat: Catalog, fw: Fw, k: Kind, m: ModVal)
    requires WellRanked(cat)
    ensures Init(cat, fw, k, m).out.Pass? ==>
      Init(cat, fw, k, m).fw.modules[k].items == m.items + OwnItems(cat.hooks(k))
  {
    HookOwn(cat, fw, k, m, 0);
    assert cat.hooks(k)[0..] == cat.hooks(k);
  }

  /** With `&self` hooks (core/src/module.rs) the stored instance is exactly the one
      given to `init_module`; `req_module` stores the `Default` value unchanged. */
  lemma ReadOnlyHookStoresGiven(cat: Catalog, fw: Fw, k: Kind, m: ModVal)
    requires WellRanked(cat) && ReadOnlyHooks(cat)
    ensures Init(cat, fw, k, m).out.Pass? ==> Init(cat, fw, k, m).fw.modules[k] == m
    ensures k !in fw.modules && Req(cat, fw, k).out.Pass? ==> Req(cat, fw, k).fw.modules[k] == cat.defaults(k)
  {
    InitStores(cat, fw, k, m);
    InitStores(cat, fw, k, cat.defaults(k));
  }

  /** `req_module` runs the hook only for an absent kind; a second call with no take in
      between changes nothing and yields the same stored instance. */
  lemma ReqIdempotent(cat: Catalog, fw: Fw, k: Kind)
    requires WellRanked(cat)
    ensures k in fw.modules ==> Req(cat, fw, k) == Step(fw, Pass)
    ensures Req(cat, fw, k).out.Pass? ==>
      Req(cat, Req(cat, fw, k).fw, k) == Step(Req(cat, fw, k).fw, Pass)
  {
  }

  /** The borrow after a successful initialisation never fails: every error of
      `req_module` comes from a hook. */
  lemma {:induction false} ReqErrorsFromHooks(cat: Catalog, fw: Fw, k: Kind)
    requires WellRanked(cat)
    ensures Req(cat, fw, k).out.Fail? ==> Req(cat, fw, k).out.error.Failed?
    decreases cat.rank(k), 2, 0
  {
    if k !in fw.modules {
      InitErrorsFromHooks(cat, fw, k, cat.defaults(k));
    }
  }

  lemma {:induction false} InitErrorsFromHooks(cat: Catalog, fw: Fw, k: Kind, m: ModVal)
    requires WellRanked(cat)
    ensures Init(cat, fw, k, m).out.Fail? ==> Init(cat, fw, k, m).out.error.Failed?
    decreases cat.rank(k), 1, 0
  {
    HookErrorsFromHooks(cat, fw, k, m, 0);
  }

  lemma {:induction false} HookErrorsFromHooks(cat: Catalog, fw: Fw, k: Kind, own: ModVal, i: nat)
    requires WellRanked(cat) && i <= |cat.hooks(k)|
    ensures Hook(cat, fw, k, own, i).out.Fail? ==> Hook(cat, fw, k, own, i).out.error.Failed?
    decreases cat.rank(k), 0, |cat.hooks(k)| - i
  {
    if i < |cat.hooks(k)| {
      match cat.hooks(k)[i]
      case Require(dep, adds) =>
        ReqErrorsFromHooks(cat, fw, dep);
        var s := Req(cat, fw, dep);
        if s.out.Pass? {
          HookErrorsFromHooks(cat, Fw(s.fw.modules[dep := Extend(s.fw.modules[dep], adds)], s.fw.runtime), k, own, i + 1);
        }
      case AddOwn(item) => HookErrorsFromHooks(cat, fw, k, Extend(own, [item]), i + 1);
      case Enqueue(prep) => HookErrorsFromHooks(cat, Fw(fw.modules, Macros.Rt(fw.runtime, k, prep)), k, own, i + 1);
      case Abort(msg) =>
    }
  }

  // ---------------------------------------------------------------------------
  // Every queued closure belongs to a registered module (or to one whose hook is still running).

  ghost predicate OwnedBy(fw: Fw, pending: set<Kind>)
  {
    forall n :: 0 <= n < |fw.runtime| ==> fw.runtime[n].owner in fw.modules || fw.runtime[n].owner in pending
  }

  lemma {:induction false} HookOwned(cat: Catalog, fw: Fw, k: Kind, own: ModVal, i: nat, pending: set<Kind>)
    requires WellRanked(cat) && i <= |cat.hooks(k)| && k in pending
    requires OwnedBy(fw, pending)
    ensures Hook(cat, fw, k, own, i).out.Pass? ==> OwnedBy(Hook(cat, fw, k, own, i).fw, pending)
    decreases cat.rank(k), 0, |cat.hooks(k)| - i
  {
    if i < |cat.hooks(k)| {
      match cat.hooks(k)[i]
      case Require(dep, adds) =>
        ReqOwned(cat, fw, dep, pending);
        var s := Req(cat, fw, dep);
        if s.out.Pass? {
          var fw' := Fw(s.fw.modules[dep := Extend(s.fw.modules[dep], adds)], s.fw.runtime);
          assert OwnedBy(fw', pending);
          HookOwned(cat, fw', k, own, i + 1, pending);
        }
      case AddOwn(item) => HookOwned(cat, fw, k, Extend(own, [item]), i + 1, pending);
      case Enqueue(prep) =>
        var fw' := Fw(fw.modules, Macros.Rt(fw.runtime, k, prep));
        assert OwnedBy(fw', pending);
        HookOwned(cat, fw', k, own, i + 1, pending);
      case Abort(msg) =>
    }
  }

  lemma {:induction false} InitOwned(cat: Catalog, fw: Fw, k: Kind, m: ModVal, pending: set<Kind>)
    requires WellRanked(cat) && OwnedBy(fw, pending)
    ensures Init(cat, fw, k, m).out.Pass? ==> OwnedBy(Init(cat, fw, k, m).fw, pending)
    decreases cat.rank(k), 1, 0
  {
    HookOwned(cat, fw, k, m, 0, pending + {k});
  }

  lemma {:induction false} ReqOwned(cat: Catalog, fw: Fw, k: Kind, pending: set<Kind>)
    requires WellRanked(cat) && OwnedBy(fw, pending)
    ensures Req(cat, fw, k).out.Pass? ==> OwnedBy(Req(cat, fw, k).fw, pending)
    decreases cat.rank(k), 2, 0
  {
    if k !in fw.modules {
      InitOwned(cat, fw, k, cat.defaults(k), pending);
    }
  }

  /** After a successful `req_module` from a consistent framework, every queued
      closure's owner is registered, so its `take::<Self>()` can find it. */
  lemma ReqKeepsQueueOwned(cat: Catalog, fw: Fw, k: Kind)
    requires WellRanked(cat) && OwnedBy(fw, {})
    ensures Req(cat, fw, k).out.Pass? ==> OwnedBy(Req(cat, fw, k).fw, {})
  {
    ReqOwned(cat, fw, k, {});
  }
}

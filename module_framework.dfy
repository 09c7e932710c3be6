/** The monolithic bootstrap core of src/framework.rs: `ModuleFramework` keeps the
    module map itself (`has`, `init`, `req`, the static `take`) and the runtime
    queue (`run`); hooks take `&mut self`. The `module!` macro's generated `Default`
    is modelled by `ModuleDefault`. */
module Monolith {
  import opened Wrappers
  import opened CoreTypes
  import opened Registry
  import opened Runtime
  import Macros

  class ModuleFramework {
    const cat: Catalog
    /** `modules: ModuleMap`. */
    var modules: map<Kind, ModVal>
    /** `runtime: Vec<RuntimeClosure>`. */
    var runtime: seq<Task>

    ghost function Snapshot(): Fw
      reads this
    {
      Fw(modules, runtime)
    }

    /** `ModuleFramework::new`. */
    constructor(cat: Catalog)
      ensures this.cat == cat && modules == map[] && runtime == []
    {
      this.cat := cat;
      modules := map[];
      runtime := [];
    }

    /** `has::<K>()`. */
    method Has(k: Kind) returns (b: bool)
      ensures b <==> k in modules
    {
      b := k in modules;
    }

    /** `init(m)`: the hook runs first; the module is inserted only if it succeeds. */
    method Init(k: Kind, m: ModVal) returns (out: Outcome<Error>)
      requires WellRanked(cat)
      modifies this
      ensures Step(Snapshot(), out) == Registry.Init(cat, old(Snapshot()), k, m)
      decreases cat.rank(k), 1
    {
      var own;
      own, out := RunHook(k, m);
      if out.Pass? {
        modules := modules[k := own];
      }
    }

    /** `req::<K>()`: initialise the default K if absent, then `get_mut`, whose
        failure would read "Required module K is not loaded". */
    method Req(k: Kind) returns (r: Result<ModVal, Error>)
      requires WellRanked(cat)
      modifies this
      ensures Snapshot() == Registry.Req(cat, old(Snapshot()), k).fw
      ensures (r.Ok? <==> Registry.Req(cat, old(Snapshot()), k).out.Pass?)
      ensures r.Err? ==> Registry.Req(cat, old(Snapshot()), k).out == Fail(r.error)
      ensures r.Ok? ==> k in modules && r.value == modules[k]
      decreases cat.rank(k), 2
    {
      var present := Has(k);
      if !present {
        var out := Init(k, cat.defaults(k));
        if out.Fail? {
          return Err(out.error);
        }
      }
      if k in modules {
        r := Ok(modules[k]);
      } else {
        r := Err(NotLoaded(k));
      }
    }

    /** K's init hook against this framework (see `Registry.Hook`). */
    method RunHook(k: Kind, m: ModVal) returns (own: ModVal, out: Outcome<Error>)
      requires WellRanked(cat)
      modifies this
      ensures HookRun(Snapshot(), own, out) == Hook(cat, old(Snapshot()), k, m, 0)
      decreases cat.rank(k), 0
    {
      var hooks := cat.hooks(k);
      own := m;
      var i := 0;
      while i < |hooks|
        invariant 0 <= i <= |hooks|
        invariant Hook(cat, Snapshot(), k, own, i) == Hook(cat, old(Snapshot()), k, m, 0)
        decreases |hooks| - i
      {
        match hooks[i] {
        case Require(dep, adds) =>
          var r := Req(dep);
          if r.Err? {
            return own, Fail(r.error);
          }
          modules := modules[dep := Extend(modules[dep], adds)];
        case AddOwn(item) =>
          own := Extend(own, [item]);
        case Enqueue(prep) =>
          runtime := Macros.Rt(runtime, k, prep);
        case Abort(msg) =>
          return own, Fail(Failed(msg));
        }
        i := i + 1;
      }
      out := Pass;
    }

    /** `take::<K>(modules)`: remove K and return it by value; an absent or
        already-taken K fails with "Required module K is not loaded". */
    method Take(k: Kind) returns (r: Result<ModVal, Error>)
      modifies this
      ensures k in old(modules) ==> r == Ok(old(modules)[k]) && modules == old(modules) - {k}
      ensures k !in old(modules) ==> r == Err(NotLoaded(k)) && modules == old(modules)
      ensures runtime == old(runtime)
    {
      if k in modules {
        r := Ok(modules[k]);
        modules := modules - {k};
      } else {
        r := Err(NotLoaded(k));
      }
    }

    /** `run`: the closures in push order, then all handles. */
    method Run() returns (out: Outcome<Error>)
      modifies this
      ensures out == RunSpec(Monolith, old(modules), old(runtime))
      ensures modules == DrainFrom(Monolith, Start(old(modules)), old(runtime)).modules
    {
      var queue := runtime;
      var handles: seq<Handle> := [];
      ghost var taken: seq<ModVal> := [];
      var i := 0;
      while i < |queue|
        invariant 0 <= i <= |queue| && queue == old(runtime)
        invariant DrainFrom(Monolith, Drain(modules, handles, taken, None), queue[i..])
               == DrainFrom(Monolith, Start(old(modules)), queue)
        decreases |queue| - i
      {
        var t := queue[i];
        assert queue[i..][1..] == queue[i + 1..];
        var m := Take(t.owner);
        if m.Err? {
          return Fail(m.error);
        }
        taken := taken + [m.value];
        match t.prep {
        case PrepFail(msg) =>
          return Fail(Failed(msg));
        case NoHandle =>
        case Spawn(h) =>
          handles := handles + [h];
        }
        i := i + 1;
      }
      var j := 0;
      while j < |handles|
        invariant 0 <= j <= |handles|
        invariant JoinAll(handles[j..]) == JoinAll(handles)
        decreases |handles| - j
      {
        assert handles[j..][1..] == handles[j + 1..];
        var e := JoinError(handles[j]);
        if e.Some? {
          return Fail(e.value);
        }
        j := j + 1;
      }
      out := Pass;
    }
  }

  // ---------------------------------------------------------------------------
  // `first!` and the `Default` that `module!` generates.

  /** `first!(a, b)` is a; `first!(, b)` is b. */
  function First<T>(given: Option<T>, other: T): (r: T)
    ensures given.Some? ==> r == given.value
    ensures given.None? ==> r == other
  {
    match given
    case Some(v) => v
    case None => other
  }

  /** A field of a `module!` struct: its optional `= expr` initialiser and the value
      `Default::default()` gives its type. */
  datatype FieldDecl = FieldDecl(name: string, declared: Option<Item>, typeDefault: Item)

  /** The generated `Default`: each field, in declaration order, gets its declared
      initialiser or else its type's default. A unit module (`module!(Name; ...)`)
      has no fields. */
  function ModuleDefault(fields: seq<FieldDecl>): (r: ModVal)
    ensures |r.items| == |fields|
  {
    if |fields| == 0 then ModVal([])
    else ModVal([First(fields[0].declared, fields[0].typeDefault)] + ModuleDefault(fields[1..]).items)
  }

  lemma {:induction false} ModuleDefaultFields(fields: seq<FieldDecl>)
    ensures forall n :: 0 <= n < |fields| && fields[n].declared.Some? ==>
      ModuleDefault(fields).items[n] == fields[n].declared.value
    ensures forall n :: 0 <= n < |fields| && fields[n].declared.None? ==>
      ModuleDefault(fields).items[n] == fields[n].typeDefault
  {
    if |fields| > 0 {
      ModuleDefaultFields(fields[1..]);
      forall n | 1 <= n < |fields|
        ensures ModuleDefault(fields).items[n] == ModuleDefault(fields[1..]).items[n - 1]
      {
      }
      assert forall n :: 1 <= n < |fields| ==> fields[n] == fields[1..][n - 1];
    }
  }
}

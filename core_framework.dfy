/** The split bootstrap core: `Framework` of src/core/framework.rs with the registry
    methods of src/core/module.rs (hooks take `&mut self`) and core/src/module.rs
    (hooks take `&self`, that is, a catalog satisfying `ReadOnlyHooks`). Each
    method is proved equal to the corresponding function of `Registry` or `Runtime`. */
module CoreFramework {
  import opened Wrappers
  import opened CoreTypes
  import opened Registry
  import opened Runtime
  import Macros
  import opened CoreState

  function OutcomeOf(r: Result<ModVal, Error>): (o: Outcome<Error>)
    ensures o.Pass? <==> r.Ok?
    ensures o.Fail? ==> o.error == r.error
  {
    if r.Ok? then Pass else Fail(r.error)
  }

  class Framework {
    /** The hooks and defaults of the build's modules (the compiled-in `impl Module`s). */
    const cat: Catalog
    /** `modules: ModuleState`. */
    const modules: State
    /** `state: RuntimeState`, handed to the closures behind a lock by `run`. */
    const state: State
    /** `runtime: Vec<RuntimeClosure>`. */
    var runtime: seq<Task>

    /** The registry and queue as the specification sees them. */
    ghost function Snapshot(): Fw
      reads this, modules
    {
      Fw(modules.data, runtime)
    }

    /** `Framework::new`: empty module and runtime-state containers, empty queue. */
    constructor(cat: Catalog)
      ensures this.cat == cat
      ensures modules.data == map[] && state.data == map[] && runtime == []
      ensures fresh(modules) && fresh(state) && modules != state
    {
      this.cat := cat;
      modules := new State();
      state := new State();
      runtime := [];
    }

    /** `has_module::<K>()`. */
    method HasModule(k: Kind) returns (b: bool)
      ensures b <==> k in modules.data
    {
      b := modules.Has(k);
    }

    /** `init_module(m)`: run K's hook on m, then store m. */
    method InitModule(k: Kind, m: ModVal) returns (out: Outcome<Error>)
      requires WellRanked(cat)
      modifies this, modules
      ensures Step(Snapshot(), out) == Init(cat, old(Snapshot()), k, m)
      decreases cat.rank(k), 1
    {
      var own;
      own, out := RunHook(k, m);
      if out.Pass? {
        modules.Put(k, own);
      }
    }

    /** `req_module::<K>()`: an absent K is initialised from its `Default` first; the
        result is the stored instance. */
    method ReqModule(k: Kind) returns (r: Result<ModVal, Error>)
      requires WellRanked(cat)
      modifies this, modules
      ensures Snapshot() == Req(cat, old(Snapshot()), k).fw
      ensures OutcomeOf(r) == Req(cat, old(Snapshot()), k).out
      ensures r.Ok? ==> k in modules.data && r.value == modules.data[k]
      decreases cat.rank(k), 2
    {
      var present := HasModule(k);
      if !present {
        var out := InitModule(k, cat.defaults(k));
        if out.Fail? {
          return Err(out.error);
        }
      }
      r := modules.Borrow(k);
    }

    /** K's init hook, running against this framework: each `Require` re-enters
        `ReqModule` and edits the dependency through the returned reference. */
    method RunHook(k: Kind, m: ModVal) returns (own: ModVal, out: Outcome<Error>)
      requires WellRanked(cat)
      modifies this, modules
      ensures HookRun(Snapshot(), own, out) == Hook(cat, old(Snapshot()), k, m, 0)
      decreases cat.rank(k), 0
    {
      var hooks := cat.hooks(k);
      own := m;
      var i := 0;
      while i < |hooks|
        invariant 0 <= i <= |hooks|
        invariant Hook(cat, Snapshot(), k, own, i) == Hook(cat, old(Snapshot()), k, m, 0)
        decreases |hooks| - i
      {
        match hooks[i] {
        case Require(dep, adds) =>
          var r := ReqModule(dep);
          if r.Err? {
            return own, Fail(r.error);
          }
          var edited := modules.BorrowMut(dep, adds);
        case AddOwn(item) =>
          own := Extend(own, [item]);
        case Enqueue(prep) =>
          runtime := Macros.Rt(runtime, k, prep);
        case Abort(msg) =>
          return own, Fail(Failed(msg));
        }
        i := i + 1;
      }
      out := Pass;
    }

    /** `run`: invoke the closures in push order, each taking its owner out of the
        registry, stop at the first error, then join all collected handles. */
    method Run() returns (out: Outcome<Error>)
      modifies modules
      ensures out == RunSpec(Layered, old(modules.data), runtime)
      ensures modules.data == DrainFrom(Layered, Start(old(modules.data)), runtime).modules
    {
      var handles: seq<Handle> := [];
      ghost var taken: seq<ModVal> := [];
      var i := 0;
      while i < |runtime|
        invariant 0 <= i <= |runtime|
        invariant DrainFrom(Layered, Drain(modules.data, handles, taken, None), runtime[i..])
               == DrainFrom(Layered, Start(old(modules.data)), runtime)
        decreases |runtime| - i
      {
        var t := runtime[i];
        assert runtime[i..][1..] == runtime[i + 1..];
        var m := modules.Take(t.owner);
        if m.Err? {
          return Fail(m.error);
        }
        taken := taken + [m.value];
        match t.prep {
        case PrepFail(msg) =>
          return Fail(Failed(msg));
        case NoHandle =>
        case Spawn(h) =>
          handles := handles + [h];
        }
        i := i + 1;
      }
      var j := 0;
      while j < |handles|
        invariant 0 <= j <= |handles|
        invariant JoinAll(handles[j..]) == JoinAll(handles)
        decreases |handles| - j
      {
        assert handles[j..][1..] == handles[j + 1..];
        var e := JoinError(handles[j]);
        if e.Some? {
          return Fail(e.value);
        }
        j := j + 1;
      }
      out := Pass;
    }
  }
}

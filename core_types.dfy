/** Values shared by both snapshots of the bootstrap core: module kinds (standing
    for `TypeId`), module values, runtime closures and the errors the core raises. */
module CoreTypes {

  /** A module type; `name` is what `type_name::<T>()` prints. */
  datatype Kind = Kind(name: string)

  /** One piece of configuration held by a module (a command, a route, a handler, a field value). */
  type Item = string

  /** The state of one module instance: the configuration accumulated so far. */
  datatype ModVal = ModVal(items: seq<Item>)

  function Extend(v: ModVal, adds: seq<Item>): (r: ModVal)
    ensures |r.items| == |v.items| + |adds|
    ensures r.items[..|v.items|] == v.items && r.items[|v.items|..] == adds
  {
    ModVal(v.items + adds)
  }

  /** Which snapshot is running: the split core (src/core) or the monolithic src/framework.rs.
      They differ only in the wording of the "missing module" error. */
  datatype Flavor = Layered | Monolith

  datatype Error =
    | NotPresent(kind: Kind)     // State::borrow/borrow_mut/take on an absent type
    | NotLoaded(kind: Kind)      // ModuleFramework::req/take on an absent module
    | Failed(msg: string)        // an error returned by a hook, a closure's future or a task
    | Panicked(msg: string)      // a JoinError: the spawned task panicked or was cancelled

  function Missing(f: Flavor, k: Kind): (e: Error)
    ensures e.NotPresent? || e.NotLoaded?
    ensures (e.NotPresent? && e.kind == k) || (e.NotLoaded? && e.kind == k)
  {
    if f == Layered then NotPresent(k) else NotLoaded(k)
  }

  /** The text the error displays. */
  function Message(e: Error): (s: string)
  {
    match e
    case NotPresent(k) => "Required type " + k.name + " is not present in State container"
    case NotLoaded(k) => "Required module " + k.name + " is not loaded"
    case Failed(m) => m
    case Panicked(m) => m
  }

  lemma MissingMessages(k: Kind)
    ensures Message(Missing(Layered, k)) == "Required type " + k.name + " is not present in State container"
    ensures Message(Missing(Monolith, k)) == "Required module " + k.name + " is not loaded"
    ensures Message(Missing(Layered, k)) != Message(Missing(Monolith, k))
  {
    var a := Message(Missing(Layered, k));
    var b := Message(Missing(Monolith, k));
    assert a[9] == 't' && b[9] == 'm';
  }

  /** How a spawned task ends once joined: `Ok(Ok(()))`, `Ok(Err(e))` or `Err(JoinError)`. */
  datatype JoinOutcome = Finished | TaskError(msg: string) | JoinPanic(msg: string)

  datatype Handle = Handle(id: nat, join: JoinOutcome)

  /** What the async block of a runtime closure resolves to: `Err(e)`, `Ok(None)` or `Ok(Some(handle))`. */
  datatype Prep = PrepFail(msg: string) | NoHandle | Spawn(handle: Handle)

  /** A runtime closure as `rt!` pushes it: it first takes its owner out of the
      module registry, then runs an async block whose result is `prep`. The block
      itself is opaque to the core, only its result matters here. */
  datatype Task = Task(owner: Kind, prep: Prep)
}

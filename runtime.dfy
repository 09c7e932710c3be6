/** Specification of `run` (src/core/framework.rs:35-49, src/framework.rs:55-68): drain
    the runtime closures strictly in push order, stopping at the first error and
    collecting the optional task handles; then join all handles and report the first
    error in collection order. */
module Runtime {
  import opened Wrappers
  import opened CoreTypes

  /** The drain's progress: the module registry the closures take from, the handles
      collected so far, the module values the closures received, and the error that
      stopped the drain, if any. */
  datatype Drain = Drain(
    modules: map<Kind, ModVal>,
    handles: seq<Handle>,
    taken: seq<ModVal>,
    failure: Option<Error>)

  function Start(modules: map<Kind, ModVal>): Drain
  {
    Drain(modules, [], [], None)
  }

  /** One closure: `take::<Owner>()?`, then await its future and keep a `Some` handle. */
  function DrainStep(f: Flavor, d: Drain, t: Task): (r: Drain)
    requires d.failure.None?
    ensures r.failure.None? <==> t.owner in d.modules && !t.prep.PrepFail?
  {
    if t.owner !in d.modules then d.(failure := Some(Missing(f, t.owner)))
    else
      var d1 := d.(modules := d.modules - {t.owner}, taken := d.taken + [d.modules[t.owner]]);
      match t.prep
      case PrepFail(m) => d1.(failure := Some(Failed(m)))
      case NoHandle => d1
      case Spawn(h) => d1.(handles := d1.handles + [h])
  }

  /** The drain loop: later closures are not invoked once one has failed. */
  function DrainFrom(f: Flavor, d: Drain, tasks: seq<Task>): Drain
    decreases |tasks|
  {
    if |tasks| == 0 || d.failure.Some? then d
    else DrainFrom(f, DrainStep(f, d, tasks[0]), tasks[1..])
  }

  /** The error a joined handle reports through `res??`, if any. */
  function JoinError(h: Handle): (e: Option<Error>)
    ensures e.None? <==> h.join.Finished?
  {
    match h.join
    case Finished => None
    case TaskError(m) => Some(Failed(m))
    case JoinPanic(m) => Some(Panicked(m))
  }

  /** `for res in join_all(handles).await { res?? }`: every handle has finished
      before any result is inspected; the first error in collection order wins. */
  function JoinAll(hs: seq<Handle>): Outcome<Error>
  {
    if |hs| == 0 then Pass
    else match JoinError(hs[0])
      case None => JoinAll(hs[1..])
      case Some(e) => Fail(e)
  }

  /** The whole of `run`. */
  function RunSpec(f: Flavor, modules: map<Kind, ModVal>, tasks: seq<Task>): Outcome<Error>
  {
    var d := DrainFrom(f, Start(modules), tasks);
    if d.failure.Some? then Fail(d.failure.value) else JoinAll(d.handles)
  }

  /** The handles of the closures that returned `Some`, in closure order. */
  function Spawned(tasks: seq<Task>): (hs: seq<Handle>)
    ensures |hs| <= |tasks|
  {
    if |tasks| == 0 then []
    else (if tasks[0].prep.Spawn? then [tasks[0].prep.handle] else []) + Spawned(tasks[1..])
  }

  /** Every closure can take its owner (owners registered and pairwise distinct)
      and no closure's future fails. */
  ghost predicate Drainable(modules: map<Kind, ModVal>, tasks: seq<Task>)
  {
    (forall i :: 0 <= i < |tasks| ==> tasks[i].owner in modules && !tasks[i].prep.PrepFail?) &&
    (forall i, j :: 0 <= i < j < |tasks| ==> tasks[i].owner != tasks[j].owner)
  }

  // ---------------------------------------------------------------------------

  /** Draining p then q is draining p + q. */
  lemma {:induction false} DrainAppend(f: Flavor, d: Drain, p: seq<Task>, q: seq<Task>)
    ensures DrainFrom(f, d, p + q) == DrainFrom(f, DrainFrom(f, d, p), q)
    decreases |p|
  {
    if |p| == 0 {
      assert p + q == q;
    } else if d.failure.None? {
      assert (p + q)[1..] == p[1..] + q;
      DrainAppend(f, DrainStep(f, d, p[0]), p[1..], q);
    }
  }

  /** If the closures up to some point already failed, nothing after them runs:
      the outcome and the registry are those at the failure. */
  lemma StopsAtFirstFailure(f: Flavor, d: Drain, p: seq<Task>, q: seq<Task>)
    requires DrainFrom(f, d, p).failure.Some?
    ensures DrainFrom(f, d, p + q) == DrainFrom(f, d, p)
  {
    DrainAppend(f, d, p, q);
  }

  /** The owners of a sequence of closures. */
  function Owners(tasks: seq<Task>): (r: set<Kind>)
    ensures forall n :: 0 <= n < |tasks| ==> tasks[n].owner in r
    ensures forall k :: k in r ==> exists n :: 0 <= n < |tasks| && tasks[n].owner == k
  {
    set n | 0 <= n < |tasks| :: tasks[n].owner
  }

  /** The module values the closures of `tasks` receive from `modules`, in order. */
  function OwnerValues(modules: map<Kind, ModVal>, tasks: seq<Task>): (r: seq<ModVal>)
    requires forall n :: 0 <= n < |tasks| ==> tasks[n].owner in modules
    ensures |r| == |tasks|
  {
    if |tasks| == 0 then [] else [modules[tasks[0].owner]] + OwnerValues(modules, tasks[1..])
  }

  /** The n-th closure receives the value of its own owner. */
  lemma {:induction false} OwnerValueAt(modules: map<Kind, ModVal>, tasks: seq<Task>, n: nat)
    requires forall n :: 0 <= n < |tasks| ==> tasks[n].owner in modules
    requires n < |tasks|
    ensures OwnerValues(modules, tasks)[n] == modules[tasks[n].owner]
    decreases n
  {
    if n > 0 {
      assert tasks[1..][n - 1] == tasks[n];
      OwnerValueAt(modules, tasks[1..], n - 1);
    }
  }

  /** Dropping the first closure of a Drainable queue, and its owner, leaves a Drainable queue. */
  lemma DrainableTail(modules: map<Kind, ModVal>, tasks: seq<Task>)
    requires |tasks| > 0 && Drainable(modules, tasks)
    ensures Drainable(modules - {tasks[0].owner}, tasks[1..])
  {
    var rest := tasks[1..];
    forall i | 0 <= i < |rest|
      ensures rest[i].owner in modules - {tasks[0].owner} && !rest[i].prep.PrepFail?
    {
      assert rest[i] == tasks[i + 1];
    }
    forall i, j | 0 <= i < j < |rest|
      ensures rest[i].owner != rest[j].owner
    {
      assert rest[i] == tasks[i + 1] && rest[j] == tasks[j + 1];
    }
  }

  /** A drain of a Drainable queue completes, collecting exactly the `Some` handles
      in order and handing each closure its owner's value. */
  lemma {:induction false} DrainCompletes(f: Flavor, d: Drain, tasks: seq<Task>)
    requires d.failure.None? && Drainable(d.modules, tasks)
    ensures DrainFrom(f, d, tasks).failure.None?
    ensures DrainFrom(f, d, tasks).handles == d.handles + Spawned(tasks)
    decreases |tasks|
  {
    if |tasks| > 0 {
      var t, rest := tasks[0], tasks[1..];
      var d1 := DrainStep(f, d, t);
      DrainableTail(d.modules, tasks);
      DrainCompletes(f, d1, rest);
      assert DrainFrom(f, d, tasks) == DrainFrom(f, d1, rest);
      assert Spawned(tasks) == (if t.prep.Spawn? then [t.prep.handle] else []) + Spawned(rest);
    }
  }

  /** Each closure of a complete drain receives its owner's value as registration left it. */
  lemma {:induction false} DrainHandsOwnerValues(f: Flavor, d: Drain, tasks: seq<Task>, m0: map<Kind, ModVal>)
    requires d.failure.None? && Drainable(d.modules, tasks)
    requires forall n :: 0 <= n < |tasks| ==> tasks[n].owner in m0 && d.modules[tasks[n].owner] == m0[tasks[n].owner]
    ensures DrainFrom(f, d, tasks).taken == d.taken + OwnerValues(m0, tasks)
    decreases |tasks|
  {
    if |tasks| > 0 {
      var t, rest := tasks[0], tasks[1..];
      var d1 := DrainStep(f, d, t);
      StepTakes(f, d, t);
      DrainableTail(d.modules, tasks);
      forall n | 0 <= n < |rest|
        ensures rest[n].owner in m0 && d1.modules[rest[n].owner] == m0[rest[n].owner]
      {
        assert rest[n] == tasks[n + 1];
        assert tasks[0].owner != tasks[n + 1].owner;
      }
      DrainHandsOwnerValues(f, d1, rest, m0);
      assert DrainFrom(f, d, tasks) == DrainFrom(f, d1, rest);
      assert OwnerValues(m0, tasks) == [m0[t.owner]] + OwnerValues(m0, rest);
      assert d.taken + [m0[t.owner]] + OwnerValues(m0, rest) == d.taken + OwnerValues(m0, tasks);
    }
  }

  lemma OwnersCons(tasks: seq<Task>)
    requires |tasks| > 0
    ensures Owners(tasks) == {tasks[0].owner} + Owners(tasks[1..])
  {
    var rest := tasks[1..];
    forall k | k in Owners(tasks)
      ensures k in {tasks[0].owner} + Owners(rest)
    {
      var n :| 0 <= n < |tasks| && tasks[n].owner == k;
      if n > 0 { assert tasks[n] == rest[n - 1]; }
    }
    forall k | k in Owners(rest)
      ensures k in Owners(tasks)
    {
      var n :| 0 <= n < |rest| && rest[n].owner == k;
      assert tasks[n + 1] == rest[n];
    }
  }

  /** A closure whose owner is present and whose future resolves takes exactly that owner. */
  lemma StepTakes(f: Flavor, d: Drain, t: Task)
    requires d.failure.None? && t.owner in d.modules && !t.prep.PrepFail?
    ensures DrainStep(f, d, t).failure.None?
    ensures DrainStep(f, d, t).modules == d.modules - {t.owner}
    ensures DrainStep(f, d, t).taken == d.taken + [d.modules[t.owner]]
  {
  }

  /** After a complete drain the registry has lost exactly the owners of the closures. */
  lemma {:induction false} DrainRemovesOwners(f: Flavor, d: Drain, tasks: seq<Task>)
    requires d.failure.None? && Drainable(d.modules, tasks)
    ensures DrainFrom(f, d, tasks).modules == d.modules - Owners(tasks)
    decreases |tasks|
  {
    if |tasks| > 0 {
      var t, rest := tasks[0], tasks[1..];
      var d1 := DrainStep(f, d, t);
      StepTakes(f, d, t);
      DrainableTail(d.modules, tasks);
      DrainRemovesOwners(f, d1, rest);
      assert DrainFrom(f, d, tasks) == DrainFrom(f, d1, rest);
      OwnersCons(tasks);
      assert d.modules - {t.owner} - Owners(rest) == d.modules - ({t.owner} + Owners(rest));
    } else {
      assert Owners(tasks) == {};
    }
  }

  /** A drain that is not Drainable fails. */
  lemma {:induction false} DrainFails(f: Flavor, d: Drain, tasks: seq<Task>)
    requires d.failure.None? && !Drainable(d.modules, tasks)
    ensures DrainFrom(f, d, tasks).failure.Some?
    decreases |tasks|
  {
    var t := tasks[0];
    if t.owner in d.modules && !t.prep.PrepFail? {
      var d1 := DrainStep(f, d, t);
      var rest := tasks[1..];
      if Drainable(d1.modules, rest) {
        // then tasks would be Drainable: t's owner is in d.modules, and no later owner equals it
        forall i | 0 <= i < |tasks|
          ensures tasks[i].owner in d.modules && !tasks[i].prep.PrepFail?
        {
          if i > 0 { assert tasks[i] == rest[i - 1]; }
        }
        forall i, j | 0 <= i < j < |tasks|
          ensures tasks[i].owner != tasks[j].owner
        {
          assert tasks[j] == rest[j - 1];
          if i > 0 { assert tasks[i] == rest[i - 1]; }
        }
        assert false;
      }
      DrainFails(f, d1, rest);
    }
  }

  /** `join_all` then `res??`: Ok exactly when every handle finished cleanly. */
  lemma {:induction false} JoinAllPass(hs: seq<Handle>)
    ensures JoinAll(hs).Pass? <==> forall i :: 0 <= i < |hs| ==> hs[i].join.Finished?
  {
    if |hs| > 0 {
      JoinAllPass(hs[1..]);
      assert forall i :: 1 <= i < |hs| ==> hs[i] == hs[1..][i - 1];
    }
  }

  /** The error of `run` after a complete drain is that of the first failing handle
      in collection order, even when a later handle failed earlier in time. */
  lemma {:induction false} JoinAllFirstError(hs: seq<Handle>, i: nat)
    requires i < |hs| && !hs[i].join.Finished?
    requires forall j :: 0 <= j < i ==> hs[j].join.Finished?
    ensures JoinAll(hs) == Fail(JoinError(hs[i]).value)
  {
    if i > 0 {
      JoinAllFirstError(hs[1..], i - 1);
    }
  }

  /** `run` is Ok exactly when every closure takes its module and resolves without
      error and every collected handle finishes cleanly; an empty queue is Ok. */
  lemma RunOkIff(f: Flavor, modules: map<Kind, ModVal>, tasks: seq<Task>)
    ensures RunSpec(f, modules, tasks).Pass? <==>
      Drainable(modules, tasks) &&
      forall i :: 0 <= i < |Spawned(tasks)| ==> Spawned(tasks)[i].join.Finished?
    ensures RunSpec(f, modules, []) == Pass
  {
    var d := DrainFrom(f, Start(modules), tasks);
    if Drainable(modules, tasks) {
      DrainCompletes(f, Start(modules), tasks);
      assert d.failure.None?;
      assert d.handles == Spawned(tasks) by {
        assert [] + Spawned(tasks) == Spawned(tasks);
      }
      assert RunSpec(f, modules, tasks) == JoinAll(Spawned(tasks));
      JoinAllPass(Spawned(tasks));
    } else {
      DrainFails(f, Start(modules), tasks);
      assert RunSpec(f, modules, tasks).Fail?;
    }
  }
}

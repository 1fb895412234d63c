/**
 * The AMD-style module loader of the standalone bundle: `define` records a
 * module's dependencies and factory, `require` runs the factory once its
 * dependencies are loaded and caches the result.
 *
 * The three maps of the original are fields of one immutable `Loader` value.
 * `state` only ever holds the `FAILED` marker, so it is the set `failed`.
 * Objects created by `require` (the `{}` placeholder) are identified by a
 * counter, so that "the same object" can be stated.
 */
module Loader {
  import opened Wrappers
  import ModuleName

  /** The values a factory can see or produce. */
  datatype Value =
    | Undefined
    | Placeholder(id: nat)   // the `{}` installed in `seen` before loading
    | Datum(token: int)      // any other value a factory returns

  /** What running a factory does: return a value or throw. */
  datatype Outcome = Returned(v: Value) | Threw(reason: string)

  /** A factory: a function of its reified dependencies, or a value that cannot be applied. */
  datatype Callback = Function(body: seq<Value> -> Outcome) | NotCallable

  datatype Entry = Entry(deps: seq<string>, callback: Callback)

  /** The second argument of `define`: an array of names, or anything else, which is taken as the factory. */
  datatype DepsArg = DepList(names: seq<string>) | FactoryArg(factory: Callback)

  datatype LoadError =
    | NotFound(name: string)   // `Could not find module <name>`
    | Thrown(reason: string)   // rethrown from a factory
    | NotAFunction(name: string)   // `callback.apply` on a non-function
    | StackOverflow            // the JavaScript call stack ran out

  /** One factory invocation: the module's name and the arguments the factory received. */
  datatype Run = Run(name: string, args: seq<Value>)

  datatype Loader = Loader(
    registry: map<string, Entry>,
    seen: map<string, Value>,
    failed: set<string>,
    nextId: nat,
    runs: seq<Run>)            // every factory invocation, in order

  const Exports := "exports"

  const Empty := Loader(map[], map[], {}, 0, [])

  /** The `message` of the error `require` throws. */
  function Message(e: LoadError): string {
    match e
    case NotFound(name) => "Could not find module " + name
    case Thrown(reason) => reason
    case NotAFunction(name) => "callback of " + name + " is not a function"
    case StackOverflow => "Maximum call stack size exceeded"
  }

  /** A name whose cached value `require` returns: seen and never marked failed. */
  predicate Live(l: Loader, name: string) {
    name in l.seen && name !in l.failed
  }

  /** `define(name, deps, callback)`. */
  function Define(l: Loader, name: string, deps: DepsArg, callback: Callback): (l': Loader)
    ensures name in l'.registry
    ensures deps.FactoryArg? ==> l'.registry[name] == Entry([], deps.factory)
    ensures deps.DepList? ==> l'.registry[name] == Entry(deps.names, callback)
    ensures l'.registry.Keys == l.registry.Keys + {name}
    ensures forall k :: k in l.registry && k != name ==> l'.registry[k] == l.registry[k]
    ensures l'.seen == l.seen && l'.failed == l.failed && l'.runs == l.runs && l'.nextId == l.nextId
  {
    var entry := match deps
      case DepList(names) => Entry(names, callback)
      case FactoryArg(f) => Entry([], f);
    l.(registry := l.registry[name := entry])
  }

  /**
   * `require(name)`. `fuel` bounds the nesting depth of loads, standing for
   * the JavaScript call stack; with no fuel left a load fails with
   * `StackOverflow` before it changes anything.
   */
  function Require(l: Loader, name: string, fuel: nat): (res: (Result<Value, LoadError>, Loader))
    ensures Live(l, name) ==> res == (Success(l.seen[name]), l)
    ensures !Live(l, name) && name !in l.registry ==> res == (Failure(NotFound(name)), l)
    ensures !Live(l, name) && name in l.registry && fuel > 0 ==> res.1.nextId > l.nextId
    ensures res.1.registry == l.registry
    ensures l.seen.Keys <= res.1.seen.Keys
    ensures l.failed <= res.1.failed
    ensures l.nextId <= res.1.nextId
    ensures l.runs <= res.1.runs
    ensures forall k :: Live(l, k) ==> Live(res.1, k) && res.1.seen[k] == l.seen[k]
    ensures res.0.Success? ==> res.1.failed == l.failed
    ensures res.0.Success? ==> name in res.1.seen && res.1.seen[name] == res.0.value
    ensures res.0.Failure? && name in l.registry && !Live(l, name) && fuel > 0 ==> name in res.1.failed
    // a fresh load succeeds only by running the factory, whose run is the last one recorded
    ensures res.0.Success? && !Live(l, name) ==>
      && fuel > 0 && name in l.registry && l.registry[name].callback.Function?
      && |res.1.runs| > |l.runs|
      && res.1.runs[|res.1.runs| - 1].name == name
      && |res.1.runs[|res.1.runs| - 1].args| == |l.registry[name].deps|
    ensures res.0.Success? && !Live(l, name) ==>
      var deps := l.registry[name].deps;
      var args := res.1.runs[|res.1.runs| - 1].args;
      // the result is what the factory returned, or the placeholder it filled in
      && (Exports !in deps ==> l.registry[name].callback.body(args) == Returned(res.0.value))
      && (Exports in deps ==> l.registry[name].callback.body(args).Returned?)
      // each `exports` argument is the placeholder installed for this load
      && (forall i :: 0 <= i < |deps| && deps[i] == Exports ==> args[i] == Placeholder(l.nextId))
      // each other argument is the value cached for the resolved dependency
      && (forall i :: 0 <= i < |deps| ==>
            var d := ModuleName.Resolve(deps[i], name);
            deps[i] != Exports && d != name && d !in l.failed ==> d in res.1.seen && res.1.seen[d] == args[i])
    decreases fuel, 0
  {
    if Live(l, name) then (Success(l.seen[name]), l)
    else if name !in l.registry then (Failure(NotFound(name)), l)
    else if fuel == 0 then (Failure(StackOverflow), l)
    else
      var mod := l.registry[name];
      var p := Placeholder(l.nextId);
      var (reified, l2) := Reify(Started(l, name), mod.deps, name, p, fuel - 1);
      if reified.Failure? then (Failure(reified.error), l2.(failed := l2.failed + {name}))
      else
        match mod.callback
        case NotCallable => (Failure(NotAFunction(name)), l2.(failed := l2.failed + {name}))
        case Function(body) =>
          var l3 := l2.(runs := l2.runs + [Run(name, reified.value)]);
          match body(reified.value)
          case Threw(reason) => (Failure(Thrown(reason)), l3.(failed := l3.failed + {name}))
          case Returned(m) =>
            if Exports in mod.deps then (Success(l3.seen[name]), l3)
            else (Success(m), l3.(seen := l3.seen[name := m]))
  }

  /**
   * `reify(deps, name, seen[name])`: each `exports` dependency becomes the
   * placeholder, every other one is required after resolving it against `name`.
   */
  function Reify(l: Loader, deps: seq<string>, name: string, placeholder: Value, fuel: nat)
    : (res: (Result<seq<Value>, LoadError>, Loader))
    ensures res.1.registry == l.registry
    ensures l.seen.Keys <= res.1.seen.Keys
    ensures l.failed <= res.1.failed
    ensures l.nextId <= res.1.nextId
    ensures l.runs <= res.1.runs
    ensures forall k :: Live(l, k) ==> Live(res.1, k) && res.1.seen[k] == l.seen[k]
    ensures res.0.Success? ==> res.1.failed == l.failed
    ensures res.0.Success? ==> |res.0.value| == |deps|
    ensures res.0.Success? ==>
      forall i :: 0 <= i < |deps| && deps[i] == Exports ==> res.0.value[i] == placeholder
    ensures res.0.Success? ==>
      forall i :: 0 <= i < |deps| ==>
        var d := ModuleName.Resolve(deps[i], name);
        deps[i] != Exports && d !in l.failed ==> d in res.1.seen && res.1.seen[d] == res.0.value[i]
    // a first dependency that is neither loaded nor registered aborts with its not-found error
    ensures |deps| > 0 && deps[0] != Exports ==>
      var d := ModuleName.Resolve(deps[0], name);
      !Live(l, d) && d !in l.registry ==> res == (Failure(NotFound(d)), l)
    decreases fuel, 1, |deps|
  {
    if |deps| == 0 then (Success([]), l)
    else if deps[0] == Exports then
      var (rest, l') := Reify(l, deps[1..], name, placeholder, fuel);
      if rest.Failure? then (rest, l') else (Success([placeholder] + rest.value), l')
    else
      var (first, l1) := Require(l, ModuleName.Resolve(deps[0], name), fuel);
      if first.Failure? then (Failure(first.error), l1)
      else
        var (rest, l2) := Reify(l1, deps[1..], name, placeholder, fuel);
        if rest.Failure? then (rest, l2)
        else
          var values := [first.value] + rest.value;
          assert Live(l2, ModuleName.Resolve(deps[0], name)) || ModuleName.Resolve(deps[0], name) in l.failed;
          assert forall i :: 1 <= i < |deps| ==> values[i] == rest.value[i - 1] && deps[i] == deps[1..][i - 1];
          (Success(values), l2)
  }

  // ---------------------------------------------------------------------------
  // Properties
  // ---------------------------------------------------------------------------

  /** The not-found message names the module: two names give the same message only when they are equal. */
  lemma NotFoundMessageNames(a: string, b: string)
    ensures Message(NotFound(a)) == Message(NotFound(b)) ==> a == b
  {
    var p := "Could not find module ";
    assert Message(NotFound(a)) == p + a && Message(NotFound(b)) == p + b;
    assert (p + a)[|p|..] == a && (p + b)[|p|..] == b;
  }

  /** The state a fresh load of `name` starts from: its placeholder installed, the counter advanced. */
  function Started(l: Loader, name: string): (l1: Loader)
    ensures name in l1.seen && l1.seen[name] == Placeholder(l.nextId)
    ensures l1.nextId == l.nextId + 1
    ensures l1.registry == l.registry && l1.failed == l.failed && l1.runs == l.runs
  {
    l.(seen := l.seen[name := Placeholder(l.nextId)], nextId := l.nextId + 1)
  }

  /** A fresh load of a module without `exports` caches and returns what its factory returned. */
  lemma RequireReturns(l: Loader, name: string, fuel: nat, vs: seq<Value>, l2: Loader, m: Value)
    requires !Live(l, name) && name in l.registry && fuel > 0 && Exports !in l.registry[name].deps
    requires l.registry[name].callback.Function?
    requires Reify(Started(l, name), l.registry[name].deps, name, Placeholder(l.nextId), fuel - 1) == (Success(vs), l2)
    requires l.registry[name].callback.body(vs) == Returned(m)
    ensures Require(l, name, fuel) == (Success(m), l2.(runs := l2.runs + [Run(name, vs)], seen := l2.seen[name := m]))
  {
  }

  /** A fresh load whose dependencies fail to reify fails with their error and marks the module failed. */
  lemma RequireReifyFails(l: Loader, name: string, fuel: nat, e: LoadError, l2: Loader)
    requires !Live(l, name) && name in l.registry && fuel > 0
    requires Reify(Started(l, name), l.registry[name].deps, name, Placeholder(l.nextId), fuel - 1) == (Failure(e), l2)
    ensures Require(l, name, fuel) == (Failure(e), l2.(failed := l2.failed + {name}))
  {
  }

  /** A fresh load of a module with one loaded dependency runs its factory on that dependency's value. */
  lemma RequireOneDep(l: Loader, name: string, dep: string, fuel: nat, v: Value, m: Value)
    requires !Live(l, name) && name in l.registry && fuel > 0
    requires l.registry[name].deps == [dep] && dep != Exports
    requires ModuleName.Resolve(dep, name) != name && Live(l, ModuleName.Resolve(dep, name))
    requires l.seen[ModuleName.Resolve(dep, name)] == v
    requires l.registry[name].callback.Function? && l.registry[name].callback.body([v]) == Returned(m)
    ensures Require(l, name, fuel) == (Success(m), Started(l, name).(runs := l.runs + [Run(name, [v])], seen := Started(l, name).seen[name := m]))
  {
    var l1 := Started(l, name);
    ReifyOneLoaded(l1, dep, name, Placeholder(l.nextId), fuel - 1, v);
    assert Exports !in l.registry[name].deps;
    RequireReturns(l, name, fuel, [v], l1, m);
  }

  /** Reifying one dependency that is loaded already yields its cached value and changes nothing. */
  lemma ReifyOneLoaded(l: Loader, dep: string, name: string, p: Value, fuel: nat, v: Value)
    requires dep != Exports && Live(l, ModuleName.Resolve(dep, name)) && l.seen[ModuleName.Resolve(dep, name)] == v
    ensures Reify(l, [dep], name, p, fuel) == (Success([v]), l)
  {
    assert [dep][0] == dep && [dep][1..] == [];
    assert Require(l, ModuleName.Resolve(dep, name), fuel) == (Success(v), l);
    assert [v] + [] == [v];
  }

  /** One successful step of `reify`: the first value, then the rest. */
  lemma ReifyCons(l: Loader, deps: seq<string>, name: string, p: Value, fuel: nat,
                  v: Value, l1: Loader, vs: seq<Value>, l2: Loader)
    requires |deps| > 0
    requires deps[0] == Exports ==> v == p && l1 == l
    requires deps[0] != Exports ==> Require(l, ModuleName.Resolve(deps[0], name), fuel) == (Success(v), l1)
    requires Reify(l1, deps[1..], name, p, fuel) == (Success(vs), l2)
    ensures Reify(l, deps, name, p, fuel) == (Success([v] + vs), l2)
  {
  }

  /** Only registered modules ever enter the cache: `require` writes `seen` only past the registry check. */
  lemma {:induction false} RequireCachesRegistered(l: Loader, name: string, fuel: nat)
    ensures Require(l, name, fuel).1.seen.Keys <= l.seen.Keys + l.registry.Keys
    decreases fuel, 0
  {
    if !Live(l, name) && name in l.registry && fuel > 0 {
      var p := Placeholder(l.nextId);
      var l1 := l.(seen := l.seen[name := p], nextId := l.nextId + 1);
      ReifyCachesRegistered(l1, l.registry[name].deps, name, p, fuel - 1);
    }
  }

  lemma {:induction false} ReifyCachesRegistered(l: Loader, deps: seq<string>, name: string, p: Value, fuel: nat)
    ensures Reify(l, deps, name, p, fuel).1.seen.Keys <= l.seen.Keys + l.registry.Keys
    decreases fuel, 1, |deps|
  {
    if |deps| > 0 {
      if deps[0] == Exports {
        ReifyCachesRegistered(l, deps[1..], name, p, fuel);
      } else {
        var l1 := Require(l, ModuleName.Resolve(deps[0], name), fuel).1;
        RequireCachesRegistered(l, ModuleName.Resolve(deps[0], name), fuel);
        ReifyCachesRegistered(l1, deps[1..], name, p, fuel);
      }
    }
  }

  /** A successful `reify` found every non-`exports` dependency loaded already or registered. */
  lemma {:induction false} ReifyNeedsRegistered(l: Loader, deps: seq<string>, name: string, p: Value, fuel: nat)
    requires Reify(l, deps, name, p, fuel).0.Success?
    ensures forall i :: 0 <= i < |deps| ==>
      var d := ModuleName.Resolve(deps[i], name);
      deps[i] != Exports ==> Live(l, d) || d in l.registry
    decreases |deps|
  {
    if |deps| > 0 {
      assert forall i :: 1 <= i < |deps| ==> deps[1..][i - 1] == deps[i];
      if deps[0] == Exports {
        ReifyNeedsRegistered(l, deps[1..], name, p, fuel);
      } else {
        var d := ModuleName.Resolve(deps[0], name);
        ReifyFirstSucceeds(l, deps, name, p, fuel);
        var l1 := Require(l, d, fuel).1;
        ReifyNeedsRegistered(l1, deps[1..], name, p, fuel);
        RequireLiveBefore(l, d, fuel);
      }
    }
  }

  /** A successful `reify` whose first dependency is not `exports` required it successfully, then reified the rest. */
  lemma ReifyFirstSucceeds(l: Loader, deps: seq<string>, name: string, p: Value, fuel: nat)
    requires |deps| > 0 && deps[0] != Exports
    requires Reify(l, deps, name, p, fuel).0.Success?
    ensures var (first, l1) := Require(l, ModuleName.Resolve(deps[0], name), fuel);
      first.Success? && Reify(l1, deps[1..], name, p, fuel).0.Success?
  {
  }

  /** Whatever is live after a `require` was live before it or is registered. */
  lemma RequireLiveBefore(l: Loader, name: string, fuel: nat)
    ensures forall k :: Live(Require(l, name, fuel).1, k) ==> Live(l, k) || k in l.registry
  {
    RequireCachesRegistered(l, name, fuel);
  }

  /**
   * A fresh successful `require` found every dependency loaded already or
   * registered: a missing one would have thrown `Could not find module`.
   */
  lemma RequireNeedsRegistered(l: Loader, name: string, fuel: nat)
    requires !Live(l, name) && Require(l, name, fuel).0.Success?
    ensures name in l.registry
    ensures forall i :: 0 <= i < |l.registry[name].deps| ==>
      var d := ModuleName.Resolve(l.registry[name].deps[i], name);
      l.registry[name].deps[i] != Exports ==> Live(l, d) || d in l.registry
  {
    RequireFreshReifies(l, name, fuel);
    ReifyNeedsRegistered(Started(l, name), l.registry[name].deps, name, Placeholder(l.nextId), fuel - 1);
    assert forall d :: Live(Started(l, name), d) ==> d == name || Live(l, d);
  }

  /** A fresh successful `require` found the module registered and reified its dependencies successfully. */
  lemma RequireFreshReifies(l: Loader, name: string, fuel: nat)
    requires !Live(l, name) && Require(l, name, fuel).0.Success?
    ensures name in l.registry && fuel > 0
    ensures Reify(Started(l, name), l.registry[name].deps, name, Placeholder(l.nextId), fuel - 1).0.Success?
  {
  }

  /**
   * The first dependency after a run of `exports` that is neither loaded nor
   * registered stops `reify` with `Could not find module <dep>`, before any
   * later dependency is required.
   */
  lemma {:induction false} ReifyMissing(l: Loader, deps: seq<string>, name: string, p: Value, fuel: nat, j: nat)
    requires j < |deps| && deps[j] != Exports
    requires forall i :: 0 <= i < j ==> deps[i] == Exports
    requires !Live(l, ModuleName.Resolve(deps[j], name)) && ModuleName.Resolve(deps[j], name) !in l.registry
    ensures Reify(l, deps, name, p, fuel) == (Failure(NotFound(ModuleName.Resolve(deps[j], name))), l)
    decreases j
  {
    if j > 0 {
      assert deps[1..][j - 1] == deps[j];
      ReifyMissing(l, deps[1..], name, p, fuel, j - 1);
    }
  }

  /**
   * A module whose first non-`exports` dependency is missing fails with that
   * dependency's not-found error, is marked failed, and its factory never runs.
   */
  lemma MissingDependency(l: Loader, name: string, fuel: nat, j: nat)
    requires !Live(l, name) && name in l.registry && fuel > 0
    requires j < |l.registry[name].deps| && l.registry[name].deps[j] != Exports
    requires forall i :: 0 <= i < j ==> l.registry[name].deps[i] == Exports
    requires var d := ModuleName.Resolve(l.registry[name].deps[j], name); !Live(l, d) && d !in l.registry
    ensures var (r, l') := Require(l, name, fuel);
      && r == Failure(NotFound(ModuleName.Resolve(l.registry[name].deps[j], name)))
      && name in l'.failed
      && l'.runs == l.runs
  {
    var deps := l.registry[name].deps;
    var d := ModuleName.Resolve(deps[j], name);
    var p := Placeholder(l.nextId);
    var l1 := Started(l, name);
    assert d != name;
    assert !Live(l1, d) && d !in l1.registry;
    ReifyMissing(l1, deps, name, p, fuel - 1, j);
    RequireReifyFails(l, name, fuel, NotFound(d), l1);
  }

  /** Requiring a name that is neither cached nor registered throws `Could not find module <name>`. */
  lemma MissingModule(l: Loader, name: string, fuel: nat)
    requires name !in l.seen && name !in l.registry
    ensures Require(l, name, fuel).0 == Failure(NotFound(name))
    ensures Require(l, name, fuel).1 == l
    ensures Message(Require(l, name, fuel).0.error) == "Could not find module " + name
  {
  }

  /**
   * After a successful load of a module that never failed, later requires
   * return the same cached object and run nothing.
   */
  lemma CachedAfterLoad(l: Loader, name: string, fuel: nat, fuel': nat)
    requires name !in l.failed
    requires Require(l, name, fuel).0.Success?
    ensures var (r, l') := Require(l, name, fuel);
      Require(l', name, fuel') == (r, l')
  {
  }

  /**
   * A module whose load failed stays failed: neither `define` nor `require`
   * resets the marker, and with the marker set `require` never answers from
   * the cache but loads again, allocating a new placeholder.
   */
  lemma FailureIsPermanent(l: Loader, name: string, other: string, deps: DepsArg, cb: Callback, fuel: nat)
    requires name in l.failed
    ensures name in Define(l, other, deps, cb).failed
    ensures name in Require(l, other, fuel).1.failed
    ensures name in l.registry && fuel > 0 ==>
      Require(l, name, fuel).1.nextId > l.nextId
  {
  }

  /**
   * A load whose factory throws fails and marks the module failed, whatever
   * its dependencies; when they are all loaded already, the error is the
   * factory's own.
   */
  lemma ThrowMarksFailed(l: Loader, name: string, reason: string, fuel: nat)
    requires !Live(l, name) && fuel > 0
    requires name in l.registry && l.registry[name].callback.Function?
    requires forall args :: l.registry[name].callback.body(args) == Threw(reason)
    ensures Require(l, name, fuel).0.Failure?
    ensures name in Require(l, name, fuel).1.failed
    ensures (forall i :: 0 <= i < |l.registry[name].deps| ==>
        l.registry[name].deps[i] == Exports || Live(l, ModuleName.Resolve(l.registry[name].deps[i], name))) ==>
      Require(l, name, fuel).0 == Failure(Thrown(reason))
  {
    var deps := l.registry[name].deps;
    if forall i :: 0 <= i < |deps| ==> deps[i] == Exports || Live(l, ModuleName.Resolve(deps[i], name)) {
      var p := Placeholder(l.nextId);
      var l1 := l.(seen := l.seen[name := p], nextId := l.nextId + 1);
      ReifyLoaded(l1, deps, name, p, fuel - 1);
    }
  }

  /** Reifying dependencies that are all loaded already succeeds and loads nothing. */
  lemma {:induction false} ReifyLoaded(l: Loader, deps: seq<string>, name: string, p: Value, fuel: nat)
    requires forall i :: 0 <= i < |deps| ==> deps[i] == Exports || Live(l, ModuleName.Resolve(deps[i], name))
    ensures Reify(l, deps, name, p, fuel).0.Success?
    ensures Reify(l, deps, name, p, fuel).1 == l
    decreases |deps|
  {
    if |deps| > 0 {
      assert forall i :: 0 <= i < |deps[1..]| ==> deps[1..][i] == deps[i + 1];
      ReifyLoaded(l, deps[1..], name, p, fuel);
      if deps[0] != Exports {
        var d := ModuleName.Resolve(deps[0], name);
        assert Require(l, d, fuel) == (Success(l.seen[d]), l);
      }
    }
  }

  /**
   * A module that lists `exports` receives the placeholder installed in
   * `seen` before loading, at every `exports` position, and `require`
   * returns what `seen` holds for it afterwards: that same placeholder,
   * unless the module was marked failed before (a reload after a failure),
   * in which case a later load of the module inside its own factory may have
   * replaced it.
   */
  lemma {:induction false} ExportsPlaceholder(l: Loader, name: string, fuel: nat)
    requires !Live(l, name) && name in l.registry
    requires Exports in l.registry[name].deps
    requires Require(l, name, fuel).0.Success?
    ensures var (r, l') := Require(l, name, fuel);
      && r.value == l'.seen[name]
      && (name !in l.failed ==> r.value == Placeholder(l.nextId))
      && |l'.runs| > |l.runs|
      && var run := l'.runs[|l'.runs| - 1];
      && run.name == name
      && |run.args| == |l.registry[name].deps|
      && forall i :: 0 <= i < |run.args| && l.registry[name].deps[i] == Exports ==> run.args[i] == Placeholder(l.nextId)
  {
    var mod := l.registry[name];
    var p := Placeholder(l.nextId);
    var l1 := l.(seen := l.seen[name := p], nextId := l.nextId + 1);
    if name !in l.failed {
      assert Live(l1, name);
      var (reified, l2) := Reify(l1, mod.deps, name, p, fuel - 1);
      assert Live(l2, name) && l2.seen[name] == p;
    }
  }

  /**
   * Why the failed marker matters: the placeholder of a failed load stays in
   * `seen`, yet after the module is redefined `require` runs the new factory
   * instead of returning that placeholder, and runs it again on every later
   * require because the marker is never cleared.
   */
  lemma RedefineAfterFailure()
    ensures var l0 := Define(Empty, "a", DepList([]), Function(_ => Threw("boom")));
      var (r1, l1) := Require(l0, "a", 1);
      var l2 := Define(l1, "a", DepList([]), Function(_ => Returned(Datum(7))));
      var (r2, l3) := Require(l2, "a", 1);
      var (r3, l4) := Require(l3, "a", 1);
      && r1 == Failure(Thrown("boom"))
      && "a" in l1.seen && l1.seen["a"] == Placeholder(0)
      && r2 == Success(Datum(7)) && r3 == Success(Datum(7))
      && l4.runs == [Run("a", []), Run("a", []), Run("a", [])]
  {
  }

  /** A module that exports and needs `dep`; its factory returns nothing. */
  function CycleA(dep: string): Entry {
    Entry([Exports, dep], Function(_ => Returned(Undefined)))
  }

  /** A module that needs `dep` and returns what it received for it. */
  function CycleB(dep: string): Entry {
    Entry([dep], Function(args => if |args| > 0 then Returned(args[0]) else Returned(Undefined)))
  }

  /** Inside the load of `a`: `b` is loaded, and its cyclic require of `a` meets the placeholder. */
  lemma CycleInner(la: Loader, a: string, b: string, toA: string, toB: string, fuel: nat)
    requires ModuleName.Resolve(toA, b) == a && a != b && toA != Exports && fuel > 0
    requires la.registry == map[a := CycleA(toB), b := CycleB(toA)]
    requires la.seen == map[a := Placeholder(0)] && la.failed == {} && la.nextId == 1
    ensures var (r, lb) := Require(la, b, fuel);
      && r == Success(Placeholder(0))
      && lb.seen == map[a := Placeholder(0), b := Placeholder(0)]
      && lb.failed == {}
  {
    var pa := Placeholder(0);
    assert la.registry[b] == CycleB(toA) && Live(la, a) && la.seen[a] == pa;
    assert CycleB(toA).callback.body([pa]) == Returned(pa);
    RequireOneDep(la, b, toA, fuel, pa, pa);
    var lb := Require(la, b, fuel).1;
    assert lb.seen == la.seen[b := Placeholder(1)][b := pa] && lb.failed == {};
    SeenTwice(la.seen, a, b, pa, Placeholder(1));
  }

  /** Reifying `exports` and one more dependency: the placeholder, then that dependency's value. */
  lemma ReifyExportsThenOne(l: Loader, dep: string, name: string, p: Value, fuel: nat, v: Value, l1: Loader)
    requires dep != Exports
    requires Require(l, ModuleName.Resolve(dep, name), fuel) == (Success(v), l1)
    ensures Reify(l, [Exports, dep], name, p, fuel) == (Success([p, v]), l1)
  {
    assert Reify(l1, [], name, p, fuel) == (Success([]), l1);
    ReifyCons(l, [dep], name, p, fuel, v, l1, [], l1);
    assert [dep][1..] == [] && [v] + [] == [v];
    ReifyCons(l, [Exports, dep], name, p, fuel, p, l, [v], l1);
    assert [Exports, dep][1..] == [dep] && [p] + [v] == [p, v];
  }

  /** Installing and then overwriting `b` in a cache that holds only `a`. */
  lemma SeenTwice(s: map<string, Value>, a: string, b: string, pa: Value, pb: Value)
    requires s == map[a := pa] && a != b
    ensures s[b := pb][b := pa] == map[a := pa, b := pa]
  {
  }

  /**
   * A cycle through `exports`: `a` needs `b`, which needs `a` back. `b` is
   * handed `a`'s placeholder, and requiring `a` returns that same object.
   */
  lemma CycleSeesPlaceholder(l: Loader, a: string, b: string, toA: string, toB: string)
    requires ModuleName.Resolve(toB, a) == b && ModuleName.Resolve(toA, b) == a
    requires a != b && toA != Exports && toB != Exports
    requires l == Loader(map[a := CycleA(toB), b := CycleB(toA)], map[], {}, 0, [])
    ensures var (r, l') := Require(l, a, 3);
      && r == Success(Placeholder(0))
      && b in l'.seen && l'.seen[b] == Placeholder(0)
  {
    var pa := Placeholder(0);
    var la := l.(seen := l.seen[a := pa], nextId := 1);
    assert l.registry[a] == CycleA(toB);
    CycleOuter(la, a, b, toA, toB, 2);
    var lb := Require(la, b, 2).1;
    var l3 := lb.(runs := lb.runs + [Run(a, [pa, pa])]);
    assert CycleA(toB).callback.body([pa, pa]) == Returned(Undefined);
    assert Require(l, a, 3) == (Success(l3.seen[a]), l3);
  }

  /** The dependencies of `a` in the cycle: the placeholder twice, once as `exports` and once through `b`. */
  lemma CycleOuter(la: Loader, a: string, b: string, toA: string, toB: string, fuel: nat)
    requires ModuleName.Resolve(toB, a) == b && ModuleName.Resolve(toA, b) == a && fuel > 0
    requires a != b && toA != Exports && toB != Exports
    requires la.registry == map[a := CycleA(toB), b := CycleB(toA)]
    requires la.seen == map[a := Placeholder(0)] && la.failed == {} && la.nextId == 1
    ensures var lb := Require(la, b, fuel).1;
      && Reify(la, [Exports, toB], a, Placeholder(0), fuel) == (Success([Placeholder(0), Placeholder(0)]), lb)
      && lb.seen == map[a := Placeholder(0), b := Placeholder(0)]
  {
    var pa := Placeholder(0);
    CycleInner(la, a, b, toA, toB, fuel);
    var lb := Require(la, b, fuel).1;
    assert Require(la, ModuleName.Resolve(toB, a), fuel) == (Success(pa), lb);
    ReifyExportsThenOne(la, toB, a, pa, fuel, pa, lb);
  }
}

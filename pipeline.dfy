/** What one call of `parseScriptInternal` does (src/index.ts:60-106) as
    functions of the engine's state: the run loop over the processor list,
    the scripted `process` callbacks, `trigger` with its recursive
    re-entry, the removal of successful processors from the registry, and
    the final regeneration of dirty trees. The class `LunAST` in module
    Engine is proved to compute exactly these functions. */
module Pipeline {
  import opened Wrappers
  import opened Text
  import opened Processors

  /** A recursion deeper than the stack budget: the `RangeError` a trigger
      cycle ends in. */
  datatype Failure = StackOverflow

  /** The engine state that outlives one call: the registry and the names of
      processors that have succeeded. */
  datatype Global = Global(registry: seq<Processor>, successful: set<string>)

  /** The outcome of one call: the engine state afterwards (changes made
      before a failure stay in place) and the returned record. */
  datatype Run = Run(global: Global, result: Result<map<string, string>, Failure>)

  /** The state of one invocation while its processors run: the engine state,
      the tree, the `dirty` closure variable, the `ret` record, and whether a
      failure has escaped. */
  datatype Frame = Frame(global: Global, tree: Tree, dirty: bool, ret: map<string, string>, overflow: bool)

  /** The engine's collaborators: the module source getter as
      `getModuleSourceById` sees it, and the code generator. */
  datatype Env = Env(source: string -> Option<string>, generate: Tree -> string)

  /** Position of the first processor named `tag`, or -1. */
  function IndexOfName(registry: seq<Processor>, tag: string): (r: int)
    ensures r == -1 <==> forall p <- registry :: p.name != tag
    ensures r != -1 ==> 0 <= r < |registry| && registry[r].name == tag &&
                        forall j :: 0 <= j < r ==> registry[j].name != tag
  {
    if registry == [] then -1
    else if registry[0].name == tag then 0
    else
      var r := IndexOfName(registry[1..], tag);
      if r == -1 then -1 else r + 1
  }

  /** `this.processors.find((x) => x.name === tag)`: the first registered
      processor of that name. */
  function FindByName(registry: seq<Processor>, tag: string): (r: Option<Processor>)
    ensures r.None? <==> forall p <- registry :: p.name != tag
    ensures r.Some? ==> r.value == registry[IndexOfName(registry, tag)]
  {
    var i := IndexOfName(registry, tag);
    if i == -1 then None else Some(registry[i])
  }

  /** `this.processors.indexOf(processor)`, by object identity. */
  function IndexOfProcessor(registry: seq<Processor>, p: Processor): (r: int)
    ensures r == -1 <==> p !in registry
    ensures r != -1 ==> 0 <= r < |registry| && registry[r] == p && p !in registry[..r]
  {
    if registry == [] then -1
    else if registry[0] == p then 0
    else
      var r := IndexOfProcessor(registry[1..], p);
      if r == -1 then -1
      else
        assert registry[..r + 1] == [registry[0]] + registry[1..][..r];
        r + 1
  }

  /** `registry.splice(start, 1)`: a negative start counts from the end. */
  function Splice(registry: seq<Processor>, start: int): (r: seq<Processor>)
  {
    var k := if start < 0 then (if |registry| + start < 0 then 0 else |registry| + start)
             else (if start > |registry| then |registry| else start);
    if k < |registry| then registry[..k] + registry[k + 1..] else registry
  }

  /** `this.processors.splice(this.processors.indexOf(processor), 1)`:
      the first occurrence of `p` goes; when `p` is no longer registered,
      the index is -1 and the LAST entry goes instead. */
  function RemoveFromRegistry(registry: seq<Processor>, p: Processor): (r: seq<Processor>)
    ensures p in registry ==> exists i :: 0 <= i < |registry| && registry[i] == p && p !in registry[..i] &&
                                r == registry[..i] + registry[i + 1..]
    ensures p !in registry && registry != [] ==> r == registry[..|registry| - 1]
    ensures registry == [] ==> r == []
    ensures multiset(r) <= multiset(registry)
  {
    var i := IndexOfProcessor(registry, p);
    if i != -1 then
      SpliceAt(registry, i);
      Splice(registry, i)
    else
      SpliceLast(registry);
      Splice(registry, i)
  }

  lemma SpliceAt(registry: seq<Processor>, i: int)
    requires 0 <= i < |registry|
    ensures Splice(registry, i) == registry[..i] + registry[i + 1..]
    ensures multiset(Splice(registry, i)) <= multiset(registry)
  {
    assert registry == registry[..i] + [registry[i]] + registry[i + 1..];
  }

  lemma SpliceLast(registry: seq<Processor>)
    ensures registry != [] ==> Splice(registry, -1) == registry[..|registry| - 1]
    ensures registry == [] ==> Splice(registry, -1) == []
    ensures multiset(Splice(registry, -1)) <= multiset(registry)
  {
    if registry != [] {
      var r := Splice(registry, -1);
      assert r == registry[..|registry| - 1] + registry[|registry|..];
      assert registry == r + [registry[|registry| - 1]];
    }
  }

  /** What a `process` call returning true does to the engine state. */
  function Succeed(g: Global, p: Processor): (g2: Global)
  {
    Global(RemoveFromRegistry(g.registry, p), g.successful + {p.name})
  }

  /** The text stored for a dirty module and the final `ret`: a dirty tree's
      text overwrites whatever nested triggers recorded for this id; a clean
      one adds nothing. */
  function Finish(env: Env, id: string, f: Frame): (r: map<string, string>)
    ensures r.Keys == f.ret.Keys + (if f.dirty then {id} else {})
    ensures forall k <- r.Keys :: k != id ==> r[k] == f.ret[k]
    ensures !f.dirty ==> r == f.ret
    ensures f.dirty ==> r[id] == StripLastSemicolon(env.generate(f.tree))
  {
    if f.dirty then f.ret[id := StripLastSemicolon(env.generate(f.tree))] else f.ret
  }

  /** `parseScriptInternal(id, code, processors)`, allowed `fuel` further
      levels of nested triggers. */
  function RunInternal(env: Env, g: Global, id: string, code: string, procs: seq<Processor>, fuel: nat): (run: Run)
    decreases fuel, 5, 0
  {
    if procs == [] then Run(g, Ok(map[]))
    else
      var f := RunLoop(env, id, Frame(g, Parse(code), false, map[], false), procs, fuel);
      Run(f.global, if f.overflow then Err(StackOverflow) else Ok(Finish(env, id, f)))
  }

  /** `for (const processor of processors) ...`, stopping when a failure escapes. */
  function RunLoop(env: Env, id: string, f: Frame, procs: seq<Processor>, fuel: nat): (f2: Frame)
    decreases fuel, 4, |procs|
  {
    if procs == [] || f.overflow then f
    else RunLoop(env, id, RunOne(env, id, f, procs[0], fuel), procs[1..], fuel)
  }

  /** One iteration: call `process`, then on `true` splice the processor out
      and record its name. */
  function RunOne(env: Env, id: string, f: Frame, p: Processor, fuel: nat): (f2: Frame)
    decreases fuel, 3, 0
  {
    var script := p.process(id, f.tree);
    var after := RunActions(env, f, script.actions, fuel);
    if script.changed && !after.overflow then after.(global := Succeed(after.global, p)) else after
  }

  /** The body of a `process` callback, one action at a time. */
  function RunActions(env: Env, f: Frame, actions: seq<Action>, fuel: nat): (f2: Frame)
    decreases fuel, 2, |actions|
  {
    if actions == [] || f.overflow then f
    else RunActions(env, Act(env, f, actions[0], fuel), actions[1..], fuel)
  }

  function Act(env: Env, f: Frame, a: Action, fuel: nat): (f2: Frame)
    decreases fuel, 1, 0
  {
    match a
    case MarkDirty => f.(dirty := true)
    case Edit(change) => f.(tree := f.tree.(edits := f.tree.edits + [change]))
    case Trigger(target, tag) =>
      var r := TriggerStep(env, f.global, f.ret, target, tag, fuel);
      f.(global := r.global, ret := if r.result.Ok? then r.result.value else f.ret, overflow := r.result.Err?)
  }

  /** `state.trigger(target, tag)` with `ret` the caller's record so far. */
  function TriggerStep(env: Env, g: Global, ret: map<string, string>, target: string, tag: string, fuel: nat): (run: Run)
    decreases fuel, 0, 0
  {
    match env.source(target)
    case None => Run(g, Ok(ret))
    case Some(source) =>
      if tag in g.successful then Run(g, Ok(ret))
      else
        match FindByName(g.registry, tag)
        case None => Run(g, Ok(ret))
        case Some(p) =>
          if fuel == 0 then Run(g, Err(StackOverflow))
          else
            var nested := RunInternal(env, g, target, source, [p], fuel - 1);
            Run(nested.global, if nested.result.Ok? then Ok(ret + nested.result.value) else nested.result)
  }
}

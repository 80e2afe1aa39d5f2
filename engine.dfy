/** The `LunAST` class of src/index.ts: a registry of processors that
    `register` appends to and successful runs splice out of, a grow-only set
    of successful names, and an optional module source getter. Every
    method is proved to compute the functions of module Pipeline. */
module Engine {
  import opened Wrappers
  import opened Processors
  import opened Pipeline
  import Text

  /** `this.getModuleSource?.(id) ?? null` for an installed getter or none. */
  function SourceOf(getter: Option<string -> Option<string>>): (source: string -> Option<string>)
  {
    match getter
    case None => (id: string) => None
    case Some(get) => get
  }

  class LunAST {
    var processors: seq<Processor>
    var successful: set<string>
    var getModuleSource: Option<string -> Option<string>>
    /** The code generator (`generate` of astring), an opaque collaborator. */
    const generate: Tree -> string

    function Environment(): Env
      reads this`getModuleSource
    {
      Env(SourceOf(getModuleSource), generate)
    }

    function GlobalState(): Global
      reads this`processors, this`successful
    {
      Global(processors, successful)
    }

    constructor (generate: Tree -> string)
      ensures processors == [] && successful == {} && getModuleSource.None?
      ensures this.generate == generate
    {
      processors := [];
      successful := {};
      getModuleSource := None;
      this.generate := generate;
    }

    /** `register`: appends; earlier entries keep their places. */
    method Register(processor: Processor)
      modifies this`processors
      ensures processors == old(processors) + [processor]
      ensures |processors| == |old(processors)| + 1 && processors[..|old(processors)|] == old(processors)
    {
      processors := processors + [processor];
    }

    method SetModuleSourceGetter(getSource: string -> Option<string>)
      modifies this`getModuleSource
      ensures getModuleSource == Some(getSource)
    {
      getModuleSource := Some(getSource);
    }

    method GetModuleSourceById(id: string) returns (source: Option<string>)
      ensures getModuleSource.None? ==> source.None?
      ensures getModuleSource.Some? ==> source == getModuleSource.value(id)
    {
      match getModuleSource
      case None => source := None;
      case Some(get) => source := get(id);
    }

    /** `parseScript`: the sorted, filtered copy of the registry goes to the
        run loop; `fuel` bounds the depth of nested triggers. */
    method ParseScript(id: string, code: string, fuel: nat) returns (r: Result<map<string, string>, Failure>)
      modifies this`processors, this`successful
      ensures Run(GlobalState(), r) ==
        RunInternal(Environment(), old(GlobalState()), id, code, Available(old(processors), code), fuel)
      ensures Available(old(processors), code) == [] ==>
        r == Ok(map[]) && processors == old(processors) && successful == old(successful)
    {
      var available := Available(processors, code);
      r := ParseScriptInternal(id, code, available, fuel);
    }

    /** `parseScriptInternal`. */
    method ParseScriptInternal(id: string, code: string, procs: seq<Processor>, fuel: nat)
      returns (r: Result<map<string, string>, Failure>)
      modifies this`processors, this`successful
      decreases fuel, 1
      ensures Run(GlobalState(), r) == RunInternal(Environment(), old(GlobalState()), id, code, procs, fuel)
    {
      if |procs| == 0 {
        return Ok(map[]);
      }
      ghost var env := Environment();
      var tree := Parse(code);
      var dirty := false;
      var ret: map<string, string> := map[];
      ghost var start := Frame(GlobalState(), tree, false, map[], false);
      for i := 0 to |procs|
        invariant RunLoop(env, id, Frame(GlobalState(), tree, dirty, ret, false), procs[i..], fuel) ==
                  RunLoop(env, id, start, procs, fuel)
      {
        var processor := procs[i];
        var script := processor.process(id, tree);
        ghost var before := Frame(GlobalState(), tree, dirty, ret, false);
        assert procs[i..][0] == processor && procs[i..][1..] == procs[i + 1..];
        for j := 0 to |script.actions|
          invariant RunActions(env, Frame(GlobalState(), tree, dirty, ret, false), script.actions[j..], fuel) ==
                    RunActions(env, before, script.actions, fuel)
        {
          assert script.actions[j..][0] == script.actions[j] && script.actions[j..][1..] == script.actions[j + 1..];
          match script.actions[j]
          case MarkDirty =>
            dirty := true;
          case Edit(change) =>
            tree := tree.(edits := tree.edits + [change]);
          case Trigger(target, tag) =>
            var theirs := Trigger(target, tag, ret, fuel);
            if theirs.Err? {
              var failed := Frame(GlobalState(), tree, dirty, ret, true);
              assert RunActions(env, before, script.actions, fuel) == failed;
              assert RunOne(env, id, before, processor, fuel) == failed;
              assert RunLoop(env, id, start, procs, fuel) == failed;
              return theirs;
            }
            ret := theirs.value;
        }
        if script.changed {
          processors := RemoveFromRegistry(processors, processor);
          successful := successful + {processor.name};
        }
      }
      if dirty {
        ret := ret[id := Text.StripLastSemicolon(generate(tree))];
      }
      return Ok(ret);
    }

    /** `state.trigger(target, tag)`, merging into the caller's `ret`. */
    method Trigger(target: string, tag: string, ret: map<string, string>, fuel: nat)
      returns (r: Result<map<string, string>, Failure>)
      modifies this`processors, this`successful
      decreases fuel, 0
      ensures Run(GlobalState(), r) == TriggerStep(Environment(), old(GlobalState()), ret, target, tag, fuel)
      ensures SourceOf(getModuleSource)(target).None? || tag in old(successful) ||
              (forall p <- old(processors) :: p.name != tag) ==>
                processors == old(processors) && successful == old(successful) && r == Ok(ret)
    {
      var source := GetModuleSourceById(target);
      if source.None? {
        return Ok(ret);
      }
      if tag in successful {
        return Ok(ret);
      }
      var processor := FindByName(processors, tag);
      if processor.None? {
        return Ok(ret);
      }
      if fuel == 0 {
        return Err(StackOverflow);
      }
      var theirs := ParseScriptInternal(target, source.value, [processor.value], fuel - 1);
      if theirs.Err? {
        return theirs;
      }
      return Ok(ret + theirs.value);
    }
  }
}

/** Properties of the run semantics of module Pipeline that hold for every
    registry, every scripted processor and every module source. */
module RunFacts {
  import opened Wrappers
  import opened Text
  import opened Processors
  import opened Pipeline

  ghost function NamesOf(s: seq<Processor>): set<string>
  {
    set p <- s :: p.name
  }

  /** How the engine state may change over a call: successful names are only
      added, each added name belongs to a processor of `pool` or of the
      registry, and the registry only loses entries. */
  ghost predicate Evolves(g: Global, g': Global, pool: seq<Processor>)
  {
    && g.successful <= g'.successful
    && g'.successful <= g.successful + NamesOf(pool) + NamesOf(g.registry)
    && multiset(g'.registry) <= multiset(g.registry)
  }

  lemma SubMultisetMembers(a: seq<Processor>, b: seq<Processor>)
    requires multiset(a) <= multiset(b)
    ensures forall p <- a :: p in b
    ensures NamesOf(a) <= NamesOf(b)
  {
    forall p <- a ensures p in b {
      assert p in multiset(a);
    }
  }

  lemma EvolvesTrans(g1: Global, g2: Global, g3: Global, pool: seq<Processor>)
    requires Evolves(g1, g2, pool) && Evolves(g2, g3, pool)
    ensures Evolves(g1, g3, pool)
  {
    SubMultisetMembers(g2.registry, g1.registry);
  }

  lemma EvolvesWiden(g1: Global, g2: Global, pool: seq<Processor>, pool': seq<Processor>)
    requires Evolves(g1, g2, pool) && NamesOf(pool) <= NamesOf(pool')
    ensures Evolves(g1, g2, pool')
  {
  }

  lemma {:induction false} RunInternalEvolves(env: Env, g: Global, id: string, code: string, procs: seq<Processor>, fuel: nat)
    ensures Evolves(g, RunInternal(env, g, id, code, procs, fuel).global, procs)
    decreases fuel, 5, 0
  {
    if procs != [] {
      RunLoopEvolves(env, id, Frame(g, Parse(code), false, map[], false), procs, fuel);
    }
  }

  lemma {:induction false} RunLoopEvolves(env: Env, id: string, f: Frame, procs: seq<Processor>, fuel: nat)
    ensures Evolves(f.global, RunLoop(env, id, f, procs, fuel).global, procs)
    decreases fuel, 4, |procs|
  {
    if procs != [] && !f.overflow {
      var f1 := RunOne(env, id, f, procs[0], fuel);
      RunOneEvolves(env, id, f, procs[0], fuel);
      RunLoopEvolves(env, id, f1, procs[1..], fuel);
      assert NamesOf([procs[0]]) <= NamesOf(procs);
      assert NamesOf(procs[1..]) <= NamesOf(procs) by {
        forall p <- procs[1..] ensures p in procs { }
      }
      EvolvesWiden(f.global, f1.global, [procs[0]], procs);
      EvolvesWiden(f1.global, RunLoop(env, id, f1, procs[1..], fuel).global, procs[1..], procs);
      EvolvesTrans(f.global, f1.global, RunLoop(env, id, f1, procs[1..], fuel).global, procs);
    }
  }

  lemma {:induction false} RunOneEvolves(env: Env, id: string, f: Frame, p: Processor, fuel: nat)
    ensures Evolves(f.global, RunOne(env, id, f, p, fuel).global, [p])
    decreases fuel, 3, 0
  {
    var script := p.process(id, f.tree);
    var after := RunActions(env, f, script.actions, fuel);
    RunActionsEvolves(env, f, script.actions, fuel);
    EvolvesWiden(f.global, after.global, [], [p]);
    if script.changed && !after.overflow {
      assert NamesOf([p]) == {p.name};
      EvolvesTrans(f.global, after.global, Succeed(after.global, p), [p]);
    }
  }

  lemma {:induction false} RunActionsEvolves(env: Env, f: Frame, actions: seq<Action>, fuel: nat)
    ensures Evolves(f.global, RunActions(env, f, actions, fuel).global, [])
    decreases fuel, 2, |actions|
  {
    if actions != [] && !f.overflow {
      var f1 := Act(env, f, actions[0], fuel);
      ActEvolves(env, f, actions[0], fuel);
      RunActionsEvolves(env, f1, actions[1..], fuel);
      EvolvesTrans(f.global, f1.global, RunActions(env, f1, actions[1..], fuel).global, []);
    }
  }

  lemma {:induction false} ActEvolves(env: Env, f: Frame, a: Action, fuel: nat)
    ensures Evolves(f.global, Act(env, f, a, fuel).global, [])
    decreases fuel, 1, 0
  {
    if a.Trigger? {
      TriggerStepEvolves(env, f.global, f.ret, a.target, a.tag, fuel);
    }
  }

  lemma {:induction false} TriggerStepEvolves(env: Env, g: Global, ret: map<string, string>, target: string, tag: string, fuel: nat)
    ensures Evolves(g, TriggerStep(env, g, ret, target, tag, fuel).global, [])
    decreases fuel, 0, 0
  {
    if env.source(target).Some? && tag !in g.successful && FindByName(g.registry, tag).Some? && fuel > 0 {
      var p := FindByName(g.registry, tag).value;
      RunInternalEvolves(env, g, target, env.source(target).value, [p], fuel - 1);
      assert NamesOf([p]) <= NamesOf(g.registry);
    }
  }

  /** The engine state after a whole `parseScript` call: nothing is ever
      removed from `successful`, the registry never grows, and every new
      successful name is a registered processor's. */
  lemma ParseScriptEvolves(env: Env, g: Global, id: string, code: string, fuel: nat)
    ensures var g' := RunInternal(env, g, id, code, Available(g.registry, code), fuel).global;
      && g.successful <= g'.successful
      && g'.successful <= g.successful + NamesOf(g.registry)
      && multiset(g'.registry) <= multiset(g.registry)
  {
    var available := Available(g.registry, code);
    RunInternalEvolves(env, g, id, code, available, fuel);
    AvailableSpec(g.registry, code);
    assert NamesOf(available) <= NamesOf(g.registry);
  }

  /** A processor whose `process` never calls `markDirty`. */
  ghost predicate Quiet(p: Processor)
  {
    forall id, t :: MarkDirty !in p.process(id, t).actions
  }

  ghost predicate AllQuiet(s: seq<Processor>)
  {
    forall p <- s :: Quiet(p)
  }

  lemma {:induction false} RunInternalQuiet(env: Env, g: Global, id: string, code: string, procs: seq<Processor>, fuel: nat)
    requires AllQuiet(procs) && AllQuiet(g.registry)
    ensures var r := RunInternal(env, g, id, code, procs, fuel);
      AllQuiet(r.global.registry) && (r.result.Ok? ==> r.result.value == map[])
    decreases fuel, 5, 0
  {
    if procs != [] {
      RunLoopQuiet(env, id, Frame(g, Parse(code), false, map[], false), procs, fuel);
    }
  }

  lemma {:induction false} RunLoopQuiet(env: Env, id: string, f: Frame, procs: seq<Processor>, fuel: nat)
    requires AllQuiet(procs) && AllQuiet(f.global.registry) && !f.dirty && f.ret == map[]
    ensures var f' := RunLoop(env, id, f, procs, fuel);
      AllQuiet(f'.global.registry) && !f'.dirty && f'.ret == map[]
    decreases fuel, 4, |procs|
  {
    if procs != [] && !f.overflow {
      RunOneQuiet(env, id, f, procs[0], fuel);
      RunLoopQuiet(env, id, RunOne(env, id, f, procs[0], fuel), procs[1..], fuel);
    }
  }

  lemma {:induction false} RunOneQuiet(env: Env, id: string, f: Frame, p: Processor, fuel: nat)
    requires Quiet(p) && AllQuiet(f.global.registry) && !f.dirty && f.ret == map[]
    ensures var f' := RunOne(env, id, f, p, fuel);
      AllQuiet(f'.global.registry) && !f'.dirty && f'.ret == map[]
    decreases fuel, 3, 0
  {
    var script := p.process(id, f.tree);
    var after := RunActions(env, f, script.actions, fuel);
    RunActionsQuiet(env, f, script.actions, fuel);
    SubMultisetMembers(RemoveFromRegistry(after.global.registry, p), after.global.registry);
  }

  lemma {:induction false} RunActionsQuiet(env: Env, f: Frame, actions: seq<Action>, fuel: nat)
    requires MarkDirty !in actions && AllQuiet(f.global.registry) && !f.dirty && f.ret == map[]
    ensures var f' := RunActions(env, f, actions, fuel);
      AllQuiet(f'.global.registry) && !f'.dirty && f'.ret == map[]
    decreases fuel, 2, |actions|
  {
    if actions != [] && !f.overflow {
      assert actions[0] in actions;
      ActQuiet(env, f, actions[0], fuel);
      assert forall a <- actions[1..] :: a in actions;
      RunActionsQuiet(env, Act(env, f, actions[0], fuel), actions[1..], fuel);
    }
  }

  lemma {:induction false} ActQuiet(env: Env, f: Frame, a: Action, fuel: nat)
    requires a != MarkDirty && AllQuiet(f.global.registry) && !f.dirty && f.ret == map[]
    ensures var f' := Act(env, f, a, fuel);
      AllQuiet(f'.global.registry) && !f'.dirty && f'.ret == map[]
    decreases fuel, 1, 0
  {
    if a.Trigger? {
      var g := f.global;
      if env.source(a.target).Some? && a.tag !in g.successful && FindByName(g.registry, a.tag).Some? && fuel > 0 {
        var p := FindByName(g.registry, a.tag).value;
        RunInternalQuiet(env, g, a.target, env.source(a.target).value, [p], fuel - 1);
      }
    }
  }

  /** When no processor that can run ever marks its tree dirty, nothing is
      regenerated: the returned record is empty. */
  lemma QuietRunReturnsNothing(env: Env, g: Global, id: string, code: string, fuel: nat)
    requires AllQuiet(g.registry)
    ensures var r := RunInternal(env, g, id, code, Available(g.registry, code), fuel);
      r.result.Ok? ==> r.result.value == map[]
  {
    AvailableSpec(g.registry, code);
    RunInternalQuiet(env, g, id, code, Available(g.registry, code), fuel);
  }

  /** Every key of `m` is `id` or a module the source getter supplies. */
  ghost predicate KeysFrom(env: Env, id: string, m: map<string, string>)
  {
    forall k <- m.Keys :: k == id || env.source(k).Some?
  }

  lemma {:induction false} RunInternalKeys(env: Env, g: Global, id: string, code: string, procs: seq<Processor>, fuel: nat)
    ensures var r := RunInternal(env, g, id, code, procs, fuel);
      r.result.Ok? ==> KeysFrom(env, id, r.result.value)
    decreases fuel, 5, 0
  {
    if procs != [] {
      RunLoopKeys(env, id, Frame(g, Parse(code), false, map[], false), procs, fuel);
    }
  }

  lemma {:induction false} RunLoopKeys(env: Env, id: string, f: Frame, procs: seq<Processor>, fuel: nat)
    requires KeysFrom(env, id, f.ret)
    ensures KeysFrom(env, id, RunLoop(env, id, f, procs, fuel).ret)
    decreases fuel, 4, |procs|
  {
    if procs != [] && !f.overflow {
      var script := procs[0].process(id, f.tree);
      RunActionsKeys(env, id, f, script.actions, fuel);
      RunLoopKeys(env, id, RunOne(env, id, f, procs[0], fuel), procs[1..], fuel);
    }
  }

  lemma {:induction false} RunActionsKeys(env: Env, id: string, f: Frame, actions: seq<Action>, fuel: nat)
    requires KeysFrom(env, id, f.ret)
    ensures KeysFrom(env, id, RunActions(env, f, actions, fuel).ret)
    decreases fuel, 2, |actions|
  {
    if actions != [] && !f.overflow {
      var a := actions[0];
      if a.Trigger? {
        var g := f.global;
        var r := TriggerStep(env, g, f.ret, a.target, a.tag, fuel);
        assert Act(env, f, a, fuel).ret == if r.result.Ok? then r.result.value else f.ret;
        if env.source(a.target).Some? && a.tag !in g.successful && FindByName(g.registry, a.tag).Some? && fuel > 0 {
          var p := FindByName(g.registry, a.tag).value;
          var nested := RunInternal(env, g, a.target, env.source(a.target).value, [p], fuel - 1);
          RunInternalKeys(env, g, a.target, env.source(a.target).value, [p], fuel - 1);
          if nested.result.Ok? {
            assert r.result.value == f.ret + nested.result.value;
            assert KeysFrom(env, id, f.ret + nested.result.value);
          }
        }
      }
      RunActionsKeys(env, id, Act(env, f, a, fuel), actions[1..], fuel);
    }
  }

  /** The returned record only holds the module itself and modules reached
      through `trigger`, which the source getter must have supplied. */
  lemma ResultKeys(env: Env, g: Global, id: string, code: string, fuel: nat)
    ensures var r := RunInternal(env, g, id, code, Available(g.registry, code), fuel);
      r.result.Ok? ==> forall k <- r.result.value.Keys :: k == id || env.source(k).Some?
  {
    RunInternalKeys(env, g, id, code, Available(g.registry, code), fuel);
  }

  /** The nested run of the scenario below: `p` succeeds on `target`. */
  lemma NestedSelfRun(env: Env, p: Processor, q: Processor, target: string, source: string)
    requires p.process(target, Parse(source)) == Script([], true)
    ensures RunInternal(env, Global([p, q], {}), target, source, [p], 0) == Run(Global([q], {p.name}), Ok(map[]))
  {
    var n0 := Frame(Global([p, q], {}), Parse(source), false, map[], false);
    var n1 := n0.(global := Global([q], {p.name}));
    assert RunOne(env, target, n0, p, 0) == n1 by {
      RunOneSucceedsClean(env, target, n0, p, 0);
      RemoveFirstEntry([p, q], p);
      assert [p, q][1..] == [q];
      assert Succeed(n0.global, p) == Global([q], {p.name});
    }
    assert [p][1..] == [];
    assert RunLoop(env, target, n1, [], 0) == n1;
    assert RunLoop(env, target, n0, [p], 0) == n1;
  }

  /** `splice(-1, 1)`: processor `p` triggers itself on another module and
      succeeds there, so it is already spliced out when it succeeds again in
      the outer loop; `indexOf` then yields -1 and the last registry entry,
      `q`, is removed although it was never processed. */
  lemma SecondSuccessRemovesLastEntry(env: Env, p: Processor, q: Processor, id: string, code: string, target: string, source: string)
    requires p != q
    requires env.source(target) == Some(source)
    requires p.process(id, Parse(code)) == Script([Trigger(target, p.name)], true)
    requires p.process(target, Parse(source)) == Script([], true)
    ensures RunInternal(env, Global([p, q], {}), id, code, [p], 1) == Run(Global([], {p.name}), Ok(map[]))
  {
    var f0 := Frame(Global([p, q], {}), Parse(code), false, map[], false);
    var f2 := f0.(global := Global([], {p.name}));
    SelfTriggerStep(env, p, q, id, code, target, source);
    assert [p][1..] == [];
    assert RunLoop(env, id, f2, [], 1) == f2;
    assert RunLoop(env, id, f0, [p], 1) == f2;
  }

  /** The outer step of the scenario above: the trigger succeeds, then the
      splice of `p`, no longer registered, removes `q`. */
  lemma SelfTriggerStep(env: Env, p: Processor, q: Processor, id: string, code: string, target: string, source: string)
    requires p != q
    requires env.source(target) == Some(source)
    requires p.process(id, Parse(code)) == Script([Trigger(target, p.name)], true)
    requires p.process(target, Parse(source)) == Script([], true)
    ensures RunOne(env, id, Frame(Global([p, q], {}), Parse(code), false, map[], false), p, 1) ==
      Frame(Global([], {p.name}), Parse(code), false, map[], false)
  {
    var g0 := Global([p, q], {});
    var g1 := Global([q], {p.name});
    var f0 := Frame(g0, Parse(code), false, map[], false);
    var f1 := f0.(global := g1);
    SelfTrigger(env, p, q, target, source);
    QuietTrigger(env, f0, target, p.name, g1, 1);
    assert RemoveFromRegistry([q], p) == [] by {
      assert p !in [q];
    }
    assert Succeed(f1.global, p) == Global([], {p.name});
  }

  /** A body that is one trigger which completes and returns nothing new. */
  lemma QuietTrigger(env: Env, f: Frame, target: string, tag: string, g': Global, fuel: nat)
    requires !f.overflow
    requires TriggerStep(env, f.global, f.ret, target, tag, fuel) == Run(g', Ok(f.ret))
    ensures RunActions(env, f, [Trigger(target, tag)], fuel) == f.(global := g')
  {
    var f' := f.(global := g');
    assert Act(env, f, Trigger(target, tag), fuel) == f';
    assert RunActions(env, f', [], fuel) == f';
  }

  /** The trigger of the scenario above, which runs `p` on `target`. */
  lemma SelfTrigger(env: Env, p: Processor, q: Processor, target: string, source: string)
    requires env.source(target) == Some(source)
    requires p.process(target, Parse(source)) == Script([], true)
    ensures TriggerStep(env, Global([p, q], {}), map[], target, p.name, 1) == Run(Global([q], {p.name}), Ok(map[]))
  {
    assert FindByName([p, q], p.name) == Some(p);
    NestedSelfRun(env, p, q, target, source);
    var empty: map<string, string> := map[];
    assert empty + empty == empty;
  }

  /** One processor that changes nothing and returns true. */
  lemma RunOneSucceedsClean(env: Env, id: string, f: Frame, p: Processor, fuel: nat)
    requires !f.overflow && p.process(id, f.tree) == Script([], true)
    ensures RunOne(env, id, f, p, fuel) == f.(global := Succeed(f.global, p))
  {
    assert RunActions(env, f, [], fuel) == f;
  }

  /** One processor that only calls `markDirty` and returns true. */
  lemma RunOneSucceedsDirty(env: Env, id: string, f: Frame, p: Processor, fuel: nat)
    requires !f.overflow && p.process(id, f.tree) == Script([MarkDirty], true)
    ensures RunOne(env, id, f, p, fuel) == f.(dirty := true, global := Succeed(f.global, p))
  {
    var f' := f.(dirty := true);
    assert Act(env, f, MarkDirty, fuel) == f';
    assert RunActions(env, f', [], fuel) == f';
    assert RunActions(env, f, [MarkDirty], fuel) == f';
  }

  /** A processor registered first is the one its splice removes. */
  lemma RemoveFirstEntry(registry: seq<Processor>, p: Processor)
    requires registry != [] && registry[0] == p
    ensures RemoveFromRegistry(registry, p) == registry[1..]
  {
    assert IndexOfProcessor(registry, p) == 0;
  }

  /** The first step of the scenario below: `p` runs clean and succeeds. */
  lemma SameNameFirst(env: Env, p: Processor, q: Processor, id: string, t: Tree)
    requires p.process(id, t) == Script([], true)
    ensures RunOne(env, id, Frame(Global([p, q], {}), t, false, map[], false), p, 0) ==
      Frame(Global([q], {p.name}), t, false, map[], false)
  {
    var f0 := Frame(Global([p, q], {}), t, false, map[], false);
    RunOneSucceedsClean(env, id, f0, p, 0);
    RemoveFirstEntry([p, q], p);
    assert [p, q][1..] == [q];
    assert Succeed(f0.global, p) == Global([q], {p.name});
  }

  /** The second step: `q`, of the same name, still runs, marks the module
      dirty and succeeds. */
  lemma SameNameSecond(env: Env, p: Processor, q: Processor, id: string, t: Tree)
    requires p.name == q.name
    requires q.process(id, t) == Script([MarkDirty], true)
    ensures RunOne(env, id, Frame(Global([q], {p.name}), t, false, map[], false), q, 0) ==
      Frame(Global([], {p.name}), t, true, map[], false)
  {
    var f1 := Frame(Global([q], {p.name}), t, false, map[], false);
    RunOneSucceedsDirty(env, id, f1, q, 0);
    RemoveFirstEntry([q], q);
    assert Succeed(f1.global, q) == Global([], {p.name});
  }

  /** The outer loop of the scenario below: both processors run and succeed. */
  lemma SameNameLoop(env: Env, p: Processor, q: Processor, id: string, t: Tree)
    requires p.name == q.name
    requires p.process(id, t) == Script([], true)
    requires q.process(id, t) == Script([MarkDirty], true)
    ensures RunLoop(env, id, Frame(Global([p, q], {}), t, false, map[], false), [p, q], 0) ==
      Frame(Global([], {p.name}), t, true, map[], false)
  {
    var f1 := Frame(Global([q], {p.name}), t, false, map[], false);
    var f3 := Frame(Global([], {p.name}), t, true, map[], false);
    SameNameFirst(env, p, q, id, t);
    SameNameSecond(env, p, q, id, t);
    assert [p, q][0] == p && [p, q][1..] == [q];
    assert RunLoop(env, id, f3, [], 0) == f3;
    assert RunLoop(env, id, f1, [q], 0) == f3;
  }

  /** The `successful` set guards `trigger` only: a second processor object
      with an already successful name still runs in the outer loop. */
  lemma OuterLoopIgnoresSuccessful(env: Env, p: Processor, q: Processor, id: string, code: string)
    requires p != q && p.name == q.name
    requires p.process(id, Parse(code)) == Script([], true)
    requires q.process(id, Parse(code)) == Script([MarkDirty], true)
    ensures RunInternal(env, Global([p, q], {}), id, code, [p, q], 0) ==
      Run(Global([], {p.name}), Ok(map[id := StripLastSemicolon(env.generate(Parse(code)))]))
  {
    SameNameLoop(env, p, q, id, Parse(code));
    var f3 := Frame(Global([], {p.name}), Parse(code), true, map[], false);
    assert Finish(env, id, f3) == map[id := StripLastSemicolon(env.generate(Parse(code)))];
  }
}

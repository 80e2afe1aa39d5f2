# lunast, modelled in Dafny

lunast keeps a registry of AST processors and runs them over the source text of
webpack modules. `parseScript(id, code)` works in three steps:

- It sorts a copy of the registry by priority.
- It keeps the processors whose `find` patterns all occur in the code and that are not `manual`.
- It runs each kept processor over the parsed module.

A processor that returns `true` is spliced out of the registry, and its name is
added to the `successful` set. While it runs, a processor may call `markDirty`, which
makes the engine re-generate the module text with its last `;` stripped. It may
also call `trigger(id, tag)`, which runs the registered processor named `tag` over
another module's source and merges that result. The helpers in `src/utils.ts`
recognise the webpack module wrapper (`getParent`) and extract a module's
exports, its `require` imports and its `.d(...)` property getters.

The model has these modules:

- `Wrappers`: `Option` and `Result`.
- `Text`: `indexOf`, `lastIndexOf` and the trailing-semicolon strip.
- `Processors`:
  - processors as objects with constant fields (`Processor`);
  - eligibility (`find`, `manual`);
  - the stable priority sort and the `available` filter.
- `Pipeline`: the run semantics of `parseScriptInternal` and of `trigger`, as
  mutually recursive functions over the engine state (`Global`) and one run's
  frame (`Frame`). This includes the JavaScript `splice(indexOf(p), 1)` with its
  `-1` case, and `Object.assign`.
- `Engine`: the `LunAST` class with its fields. Its methods use the source's
  loops and are proved to compute the `Pipeline` functions.
- `RunFacts`: properties of whole runs. These include how the registry and
  `successful` may evolve, what the result's keys can be, and two concrete
  scenarios (the splice of the wrong entry, and `successful` not guarding the
  outer loop).
- `Shapes`: the ESTree node kinds the helpers inspect, and `getParent`.
- `Recognizers`: `getExports`, `getImports` and `getPropertyGetters`. Each is a
  function giving the assignments to the result record in traversal order, plus a
  method with the source's loops that fills the record.

A processor's `process` callback is a pure function of the module id and the
tree. It returns the actions it performs, in order (`markDirty`, an edit of the
tree, or `trigger(id, tag)`), together with its boolean result. The tree is
opaque: it is the wrapped source plus the edits applied to it. `generate` is a
constant of the engine. The depth of nested triggers is bounded by a `fuel`
parameter. Running out of fuel gives `Err(StackOverflow)`, which stands for the
`RangeError` of an unbounded trigger cycle.

## Model

| member | source | states |
|---|---|---|
| Engine.LunAST.constructor | src/index.ts:28-32 | the registry and `successful` start empty and no source getter is installed |
| Engine.LunAST.Register | src/index.ts:34-36 | the processor is appended to the registry and the earlier entries keep their places |
| Engine.LunAST.SetModuleSourceGetter | src/index.ts:108-110 | the given getter is the one installed |
| Engine.LunAST.GetModuleSourceById | src/index.ts:112-114 | without a getter the source is null; with one it is the getter's answer for the id |
| Engine.LunAST.ParseScript | src/index.ts:38-58 | result and new state are those of the run semantics over `Available` of the registry as it was; with no available processor it returns an empty record and leaves the state unchanged |
| Engine.LunAST.ParseScriptInternal | src/index.ts:60-106 | result and new state are those of `RunInternal`: nothing for an empty list; otherwise each processor runs in order, a successful one is spliced out and its name recorded, and the dirty text is stored under the id |
| Engine.LunAST.Trigger | src/index.ts:78-86 | equals `TriggerStep`; with no source, an already successful tag or no registered processor of that name, it changes nothing and leaves `ret` as it was |
| Processors.Parse | src/index.ts:69 | stands in for `parseFixed` of the code wrapped in parentheses on lines of their own: a fresh opaque tree to which no edit has been applied yet |
| Processors.EligibleMeaning | src/index.ts:43-50 | a processor qualifies iff it has no `find` or every pattern holds (a string occurs in the code, a regex tests true), and it is not manual |
| Processors.SortByPriority | src/index.ts:41-42 | the sorted copy is a permutation of the registry |
| Processors.SortIsSorted | src/index.ts:42 | the copy is ordered by priority, an absent priority counting as 0 |
| Processors.SortIsStable | src/index.ts:42 | processors of equal priority keep their registry order |
| Processors.AvailableSpec | src/index.ts:41-50 | `available` holds exactly the eligible registered processors, sorted by priority, and for each priority it holds the eligible ones in registry order |
| Processors.OfPriority | src/index.ts:42 | every processor picked is from the list and has the given priority |
| Processors.OfPriorityMeaning | src/index.ts:42 | picks every processor of the given priority and no other, as a subsequence of the list, its order kept |
| Processors.Insert | src/index.ts:42 | insertion adds exactly one element to the multiset |
| Processors.WithFindsHolding | src/index.ts:43-49 | keeps exactly the processors whose `find` patterns all hold |
| Processors.NotManual | src/index.ts:50 | keeps exactly the processors that are not manual |
| Text.IndexOf | src/index.ts:47 | -1 iff the needle does not occur; otherwise the first position where it occurs |
| Text.LastIndexOf | src/index.ts:100 | -1 iff the character is absent; otherwise its last position |
| Text.StripLastSemicolon | src/index.ts:99-101 | a prefix of the text, which is the whole text when it has no `;` and otherwise ends just before its last `;` |
| Pipeline.FindByName | src/index.ts:82 | none iff no registered processor has the tag as its name; otherwise the first one that does |
| Pipeline.IndexOfName | src/index.ts:82 | -1 iff no processor has the name; otherwise the first index whose processor has it |
| Pipeline.IndexOfProcessor | src/index.ts:91 | -1 iff the processor is not in the registry; otherwise the index of its first occurrence |
| Pipeline.RemoveFromRegistry | src/index.ts:91 | removes the first occurrence when present; when absent, removes the LAST entry of a non-empty registry; never adds anything |
| Pipeline.Finish | src/index.ts:96-104 | when dirty, the record gains the id mapped to the generated text with its last `;` stripped; otherwise it is unchanged |
| RunFacts.ParseScriptEvolves | src/index.ts:89-94 | over a whole `parseScript`, `successful` only grows, every new name is a registered processor's, and the registry only loses entries |
| RunFacts.RunInternalEvolves | src/index.ts:60-106 | the same for any processor list, nested triggers included |
| RunFacts.TriggerStepEvolves | src/index.ts:78-86 | the same for one trigger |
| RunFacts.QuietRunReturnsNothing | src/index.ts:70-77 | if no registered processor ever calls `markDirty`, a run that completes returns the empty record |
| RunFacts.ResultKeys | src/index.ts:79-85 | every key of a completed run's record is the module's own id or an id the source getter knows |
| RunFacts.RunInternalKeys | src/index.ts:60-106 | the same for any processor list |
| RunFacts.SecondSuccessRemovesLastEntry | src/index.ts:84-92 | a processor that succeeds on a module it triggered has already been spliced out, so `indexOf` yields -1 and the last registry entry, which was never processed, is removed |
| RunFacts.OuterLoopIgnoresSuccessful | src/index.ts:89-94 | `successful` only guards `trigger`: a second processor with an already successful name still runs in the outer loop |
| Shapes.GetParent | src/utils.ts:17-37 | equals `Wrapper`: the walk from the grandparent passes only function expressions, expression statements and calls until it meets the program, and the direct parent is a function expression |
| Shapes.WrapperSpec | src/utils.ts:17-37 | the wrapper is found iff the direct parent is a function expression and every ancestor from the grandparent up to some program is of a walk kind; the wrapper found is the direct parent |
| Shapes.ClimbsMeaning | src/utils.ts:19-33 | the loop's walk succeeds iff a program is reached through walk kinds only |
| Recognizers.GetExports | src/utils.ts:39-103 | the record equals the fold, in traversal order, of the matches that `ExportMatches` describes |
| Recognizers.ExportMatches | src/utils.ts:44-98 | every export comes from a block that has a scope and sits in a module wrapper, and carries that block's scope |
| Recognizers.PropertyExports | src/utils.ts:70-78 | every export is an identifier-keyed property of the object whose value is an expression |
| Recognizers.PropertyExportsComplete | src/utils.ts:70-78 | every identifier-keyed property whose value is an expression is exported under its key with its value |
| Recognizers.PropertyExport | src/utils.ts:70-78 | a property is exported iff it is a property with an identifier key and an expression value |
| Recognizers.ModuleReferenceExports | src/utils.ts:56-79 | a `module` reference exports only when it is an identifier whose grandparent is an assignment to `X.exports` of an object literal, and then it exports exactly that object's properties as `PropertyExports` gives them |
| Recognizers.ModuleExportsObject | src/utils.ts:49-79 | a wrapper whose one `module` reference is in `module.exports = {key: value}` exports exactly `key`, mapped to `value` with the block's scope |
| Recognizers.ExportsReferenceExport | src/utils.ts:82-96 | an `exports` reference exports iff it is an identifier under a member access with an identifier property inside an assignment; the key is that property name and the value is the assignment's right side |
| Recognizers.ParamExports | src/utils.ts:49-97 | only identifier parameters at positions 0 and 1 that have a binding contribute, and such a parameter contributes exactly the exports of its binding's references |
| Recognizers.ReferencesExportsComplete | src/utils.ts:57-96 | every export any single reference of a binding yields is among the binding's exports |
| Recognizers.ParamsExportsComplete | src/utils.ts:49-98 | every export any single parameter yields is among the wrapper's exports |
| Recognizers.BlockExports | src/utils.ts:44-98 | a block contributes only when it has a scope and a module wrapper, and then exactly the exports of the wrapper's parameters |
| Recognizers.ExportMatchesComplete | src/utils.ts:42-100 | every export any single block yields is among all the blocks' exports |
| Recognizers.LaterParamsIgnored | src/utils.ts:56-97 | parameters after the second never contribute exports |
| Recognizers.GetImports | src/utils.ts:166-199 | the record equals the fold of the matches that `ImportMatches` describes |
| Recognizers.ReferenceImport | src/utils.ts:180-194 | a reference imports iff its parent is a one-argument call with a non-null literal argument inside a declarator with an identifier id; the key is the literal's text and the value the identifier |
| Recognizers.BlockImports | src/utils.ts:171-195 | a block imports only when it has a scope and a wrapper whose third parameter is an identifier its scope binds itself, and then exactly the imports of that binding's references, each an identifier with the block's scope |
| Recognizers.ReferencesImportsComplete | src/utils.ts:180-194 | every import any single reference yields is among the binding's imports |
| Recognizers.ImportMatchesComplete | src/utils.ts:169-196 | every import any single block yields is among all the blocks' imports |
| Recognizers.ImportMatches | src/utils.ts:169-196 | every import binds a declared identifier and comes from a block that has a scope and sits in a module wrapper |
| Recognizers.GetPropertyGetters | src/utils.ts:106-144 | the record equals the fold of the matches that `GetterMatches` describes |
| Recognizers.GetterDefinition | src/utils.ts:111-121 | a call site defines getters iff it has a scope, calls `X.d(...)` and has an object-literal argument; the properties are those of the first such argument |
| Recognizers.PropertyGetter | src/utils.ts:123-136 | a property yields a getter iff it has an identifier key and a function value with a block body whose first `return` has an argument; that argument is the getter |
| Recognizers.FirstObject | src/utils.ts:118-120 | none iff no argument is an object literal; otherwise the first one that is |
| Recognizers.FirstReturn | src/utils.ts:129-131 | none iff no statement is a `return`; otherwise the first one that is |
| Recognizers.PropertyGettersComplete | src/utils.ts:123-137 | every getter any single property yields is among the object's getters |
| Recognizers.GetterMatches | src/utils.ts:109-141 | every getter carries the scope of a call site that defines getters |
| Recognizers.OnlyFirstDefinitionCounts | src/utils.ts:139 | traversal stops after the first call site that defines getters, so only that site's getters are collected |
| Recognizers.NoDefinitionNoGetters | src/utils.ts:109-141 | with no qualifying call site there are no getters |
| Recognizers.CollectLastWins | src/utils.ts:74-77 | a key is in the record iff some assignment wrote it, and the last assignment to a key wins |
| Recognizers.CollectAppend | src/utils.ts:42-100 | filling the record from two runs of matches in turn is filling it from their concatenation |
| Recognizers.KeyRecorded | src/utils.ts:74-77 | the key of any assignment made is in the record |
| Recognizers.CollectEntries | src/utils.ts:190-193 | every entry in the record was produced by an assignment under its own key |
| Recognizers.ExportsResult | src/utils.ts:39-103 | every entry of the exports record comes from a block in a module wrapper and carries its scope |
| Recognizers.ImportsResult | src/utils.ts:166-199 | every entry of the imports record is a declared identifier from a block in a module wrapper |
| Recognizers.GettersResult | src/utils.ts:106-144 | every entry of the getters record carries the scope of a defining call site |
| Recognizers.ExportFound | src/utils.ts:39-103 | every export any block yields is a key of the exports record |
| Recognizers.ImportFound | src/utils.ts:166-199 | every import any block yields is a key of the imports record |
| Recognizers.GetterFound | src/utils.ts:106-144 | every getter of the first defining call site is a key of the getters record |

## Left out

- Parsing (`meriyah`) and code generation (`astring`) are outside the model. The tree of a module is opaque, parsing never fails, and `generate` is an uninterpreted constant of the engine.
- `traverse` and scope analysis (`estree-toolkit`) are inputs. The visited blocks and call sites, their ancestors and the references of each binding are given in traversal order.
- `elapsed` and `performance.now` are left out. They only measure time.
- Processor callbacks are pure functions of the module id and the tree. They cannot read or change the engine through `state.lunast`, and they do not throw.
- Engine.LunAST.ParseScript: recursion is bounded by `fuel`. A trigger cycle deeper than the fuel gives `Err(StackOverflow)` with the state changes made so far kept, where JavaScript would overflow its stack.
- Processors.Holds: a regex is a pure predicate. The `lastIndex` state of a global regex across `test` calls is not modelled.
- Processors.PriorityOf: priorities are integers. Fractional and `NaN` priorities, and a comparator that is inconsistent for them, are not modelled.
- Recognizers.ReferenceImport: a literal's value is given as its `toString()` text. Numbers, booleans and regexes are not converted.
- Recognizers.GetExports: the result record is a map. Keys such as `__proto__`, which a JavaScript object treats specially, are not modelled.
- The `utils` getter, the re-exports and `magicAST` are left out. They only forward to the libraries above. `parseFixed` appears only as `Processors.Parse`, which gives an opaque tree.
- The module-source getter is a pure function of the module id. `RunFacts.ResultKeys` depends on this, because a getter that answered differently over time could give keys it no longer knows.
- A processor's fields (`name`, `priority`, `find`, `manual`, `process`) are constants. Replacing them after registration is not modelled.
- The code does not check everything its documentation suggests. `getImports` does not check that the reference is the callee of the call. The `exports` branch of `getExports` does not check that the member access is the assignment's left side. `getParent` never checks the direct parent's kind against the walk set. The model follows the code in all three.

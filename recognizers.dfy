/** The module-shape extractors of src/utils.ts: `getExports`, `getImports`
    and `getPropertyGetters`. The traversal and scope analysis they rely on
    are inputs here: the BlockStatements (or CallExpressions) in traversal
    order, each with its ancestors and the references of the bindings its
    scope resolves. Each extractor is a function giving the matches in the
    order the source finds them, and a method with the source's loops that
    fills the result record from them, a later match overwriting an earlier
    one for the same key. */
module Recognizers {
  import opened Wrappers
  import opened Shapes

  /** An opaque name for a scope. */
  type ScopeId = nat

  /** A reference to a binding: its node, and the nodes of its parent and
      grandparent paths (None where the path or its node is null). */
  datatype Ref = Ref(node: Node, parent: Option<Node>, grandparent: Option<Node>)

  /** A BlockStatement as the traversal presents it: whether it has a scope,
      its ancestors, the references of each name `scope.getBinding`
      resolves, of each name `scope.getOwnBinding` resolves, and which scope
      it is. */
  datatype BlockSite = BlockSite(
    hasScope: bool,
    ancestors: Ancestors,
    bindings: map<string, seq<Ref>>,
    ownBindings: map<string, seq<Ref>>,
    scope: ScopeId)

  /** A CallExpression as the traversal presents it. */
  datatype CallSite = CallSite(hasScope: bool, node: Node, scope: ScopeId)

  /** `ExpressionWithScope` */
  datatype Entry = Entry(expression: Node, scope: ScopeId)

  /** One assignment `ret[key] = entry` the extractor performs. */
  datatype Match = Match(key: string, entry: Entry)

  // ---------------------------------------------------------------------
  // Filling the result record

  /** The record after performing the assignments `ms` in order on `m`. */
  function CollectFrom(m: map<string, Entry>, ms: seq<Match>): map<string, Entry>
    decreases |ms|
  {
    if ms == [] then m else CollectFrom(m[ms[0].key := ms[0].entry], ms[1..])
  }

  lemma {:induction false} CollectAppend(m: map<string, Entry>, a: seq<Match>, b: seq<Match>)
    ensures CollectFrom(m, a + b) == CollectFrom(CollectFrom(m, a), b)
    decreases |a|
  {
    if a != [] {
      assert a + b != [];
      assert (a + b)[0] == a[0] && (a + b)[1..] == a[1..] + b;
      CollectAppend(m[a[0].key := a[0].entry], a[1..], b);
    } else {
      assert a + b == b;
    }
  }

  ghost predicate HasKey(ms: seq<Match>, k: string)
  {
    exists i :: 0 <= i < |ms| && ms[i].key == k
  }

  /** The record has a key exactly when some match produced it (or it was
      there before), and holds the LAST match for that key. */
  lemma {:induction false} CollectLastWins(m: map<string, Entry>, ms: seq<Match>, k: string)
    ensures k in CollectFrom(m, ms) <==> k in m || HasKey(ms, k)
    ensures !HasKey(ms, k) && k in m ==> CollectFrom(m, ms)[k] == m[k]
    ensures forall i :: 0 <= i < |ms| && ms[i].key == k && (forall j :: i < j < |ms| ==> ms[j].key != k) ==>
      CollectFrom(m, ms)[k] == ms[i].entry
    decreases |ms|
  {
    if ms != [] {
      var m' := m[ms[0].key := ms[0].entry];
      CollectLastWins(m', ms[1..], k);
      assert HasKey(ms, k) <==> ms[0].key == k || HasKey(ms[1..], k) by {
        if HasKey(ms, k) && ms[0].key != k {
          var i :| 0 <= i < |ms| && ms[i].key == k;
          assert ms[1..][i - 1].key == k;
        }
        if HasKey(ms[1..], k) {
          var i :| 0 <= i < |ms[1..]| && ms[1..][i].key == k;
          assert ms[i + 1].key == k;
        }
      }
      forall i | 0 <= i < |ms| && ms[i].key == k && (forall j :: i < j < |ms| ==> ms[j].key != k)
        ensures CollectFrom(m, ms)[k] == ms[i].entry
      {
        if i == 0 {
          assert !HasKey(ms[1..], k) by {
            forall i' | 0 <= i' < |ms[1..]| ensures ms[1..][i'].key != k {
              assert ms[1..][i'] == ms[i' + 1];
            }
          }
        } else {
          assert ms[1..][i - 1] == ms[i];
          assert forall j :: i - 1 < j < |ms[1..]| ==> ms[1..][j].key != k by {
            forall j | i - 1 < j < |ms[1..]| ensures ms[1..][j].key != k {
              assert ms[1..][j] == ms[j + 1];
            }
          }
        }
      }
    }
  }

  /** Every entry in the record was there before or was produced by a match
      under its own key. */
  lemma {:induction false} CollectEntries(m: map<string, Entry>, ms: seq<Match>)
    ensures forall k <- CollectFrom(m, ms) ::
              (k in m && CollectFrom(m, ms)[k] == m[k]) ||
              exists i :: 0 <= i < |ms| && ms[i] == Match(k, CollectFrom(m, ms)[k])
    decreases |ms|
  {
    if ms != [] {
      var m' := m[ms[0].key := ms[0].entry];
      CollectEntries(m', ms[1..]);
      forall k <- CollectFrom(m, ms)
        ensures (k in m && CollectFrom(m, ms)[k] == m[k]) ||
                exists i :: 0 <= i < |ms| && ms[i] == Match(k, CollectFrom(m, ms)[k])
      {
        var e := CollectFrom(m, ms)[k];
        if !(k in m' && e == m'[k]) {
          var i :| 0 <= i < |ms[1..]| && ms[1..][i] == Match(k, e);
          assert ms[i + 1] == Match(k, e);
        } else if k == ms[0].key {
          assert ms[0] == Match(k, e);
        }
      }
    }
  }

  /** A match made while visiting block `b`: the block has a scope, sits
      in a module wrapper, and the entry carries its scope. */
  ghost predicate FromBlock(m: Match, b: BlockSite)
  {
    b.hasScope && Wrapper(b.ancestors).Some? && m.entry.scope == b.scope
  }

  // ---------------------------------------------------------------------
  // getExports

  /** Position 0 (`module`): a reference whose grandparent is `X.exports = {...}`
      exports each identifier-keyed property with an expression value. */
  function ModuleReferenceExports(r: Ref, scope: ScopeId): (ms: seq<Match>)
    ensures ms != [] ==> r.node.Identifier? && r.grandparent.Some? && r.grandparent.value.AssignmentExpression?
    ensures ms != [] ==> r.grandparent.value.left.MemberExpression? && r.grandparent.value.left.property == Identifier("exports")
    ensures ms != [] ==> r.grandparent.value.right.ObjectExpression?
    ensures IsModuleExportsAssignment(r) ==> ms == PropertyExports(r.grandparent.value.right.properties, scope)
    ensures forall i :: 0 <= i < |ms| ==> ms[i].entry.scope == scope
  {
    if !r.node.Identifier? then []
    else
      match r.grandparent
      case Some(AssignmentExpression(left, right)) =>
        if left.MemberExpression? && left.property.Identifier? && left.property.name == "exports" && right.ObjectExpression?
        then PropertyExports(right.properties, scope)
        else []
      case _ => []
  }

  /** The reference is an identifier whose grandparent is `X.exports = {...}`. */
  predicate IsModuleExportsAssignment(r: Ref)
  {
    r.node.Identifier? && r.grandparent.Some? && r.grandparent.value.AssignmentExpression? &&
    r.grandparent.value.left.MemberExpression? && r.grandparent.value.left.property == Identifier("exports") &&
    r.grandparent.value.right.ObjectExpression?
  }

  function PropertyExports(properties: seq<Node>, scope: ScopeId): (r: seq<Match>)
    ensures |r| <= |properties|
    ensures forall i :: 0 <= i < |r| ==>
              exists j :: 0 <= j < |properties| && properties[j].Property? &&
                properties[j].key == Identifier(r[i].key) && r[i].entry == Entry(properties[j].value, scope) &&
                IsExpression(properties[j].value)
  {
    if properties == [] then []
    else
      var head := PropertyExport(properties[0], scope);
      var tail := PropertyExports(properties[1..], scope);
      assert forall i :: 0 <= i < |tail| ==>
               exists j :: 1 <= j < |properties| && properties[j].Property? &&
                 properties[j].key == Identifier(tail[i].key) && tail[i].entry == Entry(properties[j].value, scope) &&
                 IsExpression(properties[j].value) by {
        forall i | 0 <= i < |tail|
          ensures exists j :: 1 <= j < |properties| && properties[j].Property? &&
                    properties[j].key == Identifier(tail[i].key) && tail[i].entry == Entry(properties[j].value, scope) &&
                    IsExpression(properties[j].value)
        {
          var j :| 0 <= j < |properties[1..]| && properties[1..][j].Property? &&
            properties[1..][j].key == Identifier(tail[i].key) && tail[i].entry == Entry(properties[1..][j].value, scope) &&
            IsExpression(properties[1..][j].value);
          assert properties[1..][j] == properties[j + 1];
        }
      }
      assert head != [] ==> properties[0].key == Identifier(head[0].key);
      head + tail
  }

  function PropertyExport(property: Node, scope: ScopeId): (r: seq<Match>)
    ensures |r| <= 1
    ensures r != [] <==> property.Property? && property.key.Identifier? && IsExpression(property.value)
    ensures r != [] ==> r[0] == Match(property.key.name, Entry(property.value, scope))
  {
    if property.Property? && property.key.Identifier? && IsExpression(property.value)
    then [Match(property.key.name, Entry(property.value, scope))]
    else []
  }

  /** Position 1 (`exports`): a reference whose parent is a member access
      with an identifier property and whose grandparent is an assignment
      exports that property name as the assignment's right side. */
  function ExportsReferenceExport(r: Ref, scope: ScopeId): (ms: seq<Match>)
    ensures |ms| <= 1
    ensures ms != [] <==>
      r.node.Identifier? && r.parent.Some? && r.parent.value.MemberExpression? &&
      r.parent.value.property.Identifier? && r.grandparent.Some? && r.grandparent.value.AssignmentExpression?
    ensures ms != [] ==> ms[0] == Match(r.parent.value.property.name, Entry(r.grandparent.value.right, scope))
  {
    if !r.node.Identifier? || r.parent.None? then []
    else
      var member := r.parent.value;
      if !member.MemberExpression? || !member.property.Identifier? then []
      else
        match r.grandparent
        case Some(AssignmentExpression(_, right)) => [Match(member.property.name, Entry(right, scope))]
        case _ => []
  }

  function ReferencesExports(refs: seq<Ref>, position: nat, scope: ScopeId): (ms: seq<Match>)
    ensures forall i :: 0 <= i < |ms| ==> ms[i].entry.scope == scope
  {
    if refs == [] then []
    else
      (if position == 0 then ModuleReferenceExports(refs[0], scope) else ExportsReferenceExport(refs[0], scope))
      + ReferencesExports(refs[1..], position, scope)
  }

  /** Parameter `i` of the wrapper: only identifiers with a binding, only
      positions 0 and 1. */
  function ParamExports(b: BlockSite, param: Node, i: nat): (ms: seq<Match>)
    ensures ms != [] ==> i < 2 && param.Identifier? && param.name in b.bindings
    ensures i < 2 && param.Identifier? && param.name in b.bindings ==> ms == ReferencesExports(b.bindings[param.name], i, b.scope)
    ensures forall k :: 0 <= k < |ms| ==> ms[k].entry.scope == b.scope
  {
    if !param.Identifier? || param.name !in b.bindings || i >= 2 then []
    else ReferencesExports(b.bindings[param.name], i, b.scope)
  }

  function ParamsExports(b: BlockSite, params: seq<Node>, i: nat): (ms: seq<Match>)
    ensures forall k :: 0 <= k < |ms| ==> ms[k].entry.scope == b.scope
    decreases |params| - i
  {
    if i >= |params| then [] else ParamExports(b, params[i], i) + ParamsExports(b, params, i + 1)
  }

  /** The `BlockStatement` visitor of `getExports`. */
  function BlockExports(b: BlockSite): (ms: seq<Match>)
    ensures forall k :: 0 <= k < |ms| ==> FromBlock(ms[k], b)
    ensures b.hasScope && Wrapper(b.ancestors).Some? ==> ms == ParamsExports(b, Wrapper(b.ancestors).value.params, 0)
  {
    if !b.hasScope then []
    else
      match Wrapper(b.ancestors)
      case None => []
      case Some(f) => ParamsExports(b, f.params, 0)
  }

  /** The matches of all blocks, in traversal order; each comes from a
      block that has a scope and sits in a module wrapper. */
  function ExportMatches(blocks: seq<BlockSite>): (ms: seq<Match>)
    ensures forall k :: 0 <= k < |ms| ==> exists j :: 0 <= j < |blocks| && FromBlock(ms[k], blocks[j])
  {
    if blocks == [] then []
    else
      var head := BlockExports(blocks[0]);
      var tail := ExportMatches(blocks[1..]);
      assert forall k :: 0 <= k < |tail| ==> exists j :: 1 <= j < |blocks| && FromBlock(tail[k], blocks[j]) by {
        forall k | 0 <= k < |tail|
          ensures exists j :: 1 <= j < |blocks| && FromBlock(tail[k], blocks[j])
        {
          var j :| 0 <= j < |blocks[1..]| && FromBlock(tail[k], blocks[1..][j]);
          assert blocks[1..][j] == blocks[j + 1];
        }
      }
      head + tail
  }

  /** Parameters at position 2 and beyond never contribute exports. */
  lemma {:induction false} LaterParamsIgnored(b: BlockSite, params: seq<Node>, i: nat)
    requires i >= 2
    ensures ParamsExports(b, params, i) == []
    decreases |params| - i
  {
    if i < |params| {
      LaterParamsIgnored(b, params, i + 1);
    }
  }

  /** Every identifier-keyed property with an expression value is exported. */
  lemma {:induction false} PropertyExportsComplete(properties: seq<Node>, scope: ScopeId)
    ensures forall j | 0 <= j < |properties| && properties[j].Property? && properties[j].key.Identifier? &&
                       IsExpression(properties[j].value) ::
              Match(properties[j].key.name, Entry(properties[j].value, scope)) in PropertyExports(properties, scope)
  {
    if properties != [] {
      PropertyExportsComplete(properties[1..], scope);
      var head := PropertyExport(properties[0], scope);
      var tail := PropertyExports(properties[1..], scope);
      assert PropertyExports(properties, scope) == head + tail;
      forall j | 1 <= j < |properties| && properties[j].Property? && properties[j].key.Identifier? &&
                 IsExpression(properties[j].value)
        ensures Match(properties[j].key.name, Entry(properties[j].value, scope)) in head + tail
      {
        assert properties[1..][j - 1] == properties[j];
      }
    }
  }

  /** Every match of every reference is among the references' matches. */
  lemma {:induction false} ReferencesExportsComplete(refs: seq<Ref>, position: nat, scope: ScopeId)
    ensures position == 0 ==>
              forall i, m | 0 <= i < |refs| && m in ModuleReferenceExports(refs[i], scope) ::
                m in ReferencesExports(refs, position, scope)
    ensures position != 0 ==>
              forall i, m | 0 <= i < |refs| && m in ExportsReferenceExport(refs[i], scope) ::
                m in ReferencesExports(refs, position, scope)
  {
    if refs != [] {
      ReferencesExportsComplete(refs[1..], position, scope);
      var tail := ReferencesExports(refs[1..], position, scope);
      forall i | 1 <= i < |refs| ensures refs[1..][i - 1] == refs[i] { }
      if position == 0 {
        assert ReferencesExports(refs, position, scope) == ModuleReferenceExports(refs[0], scope) + tail;
      } else {
        assert ReferencesExports(refs, position, scope) == ExportsReferenceExport(refs[0], scope) + tail;
      }
    }
  }

  /** Every match of every parameter from `i` on is among the parameters' matches. */
  lemma {:induction false} ParamsExportsComplete(b: BlockSite, params: seq<Node>, i: nat)
    ensures forall j, m | i <= j < |params| && m in ParamExports(b, params[j], j) :: m in ParamsExports(b, params, i)
    decreases |params| - i
  {
    if i < |params| {
      ParamsExportsComplete(b, params, i + 1);
      var head := ParamExports(b, params[i], i);
      var tail := ParamsExports(b, params, i + 1);
      assert ParamsExports(b, params, i) == head + tail;
      forall j, m | i <= j < |params| && m in ParamExports(b, params[j], j) ensures m in head + tail {
        if j > i {
          assert m in tail;
        }
      }
    }
  }

  /** Every match of every block is among the blocks' matches. */
  lemma {:induction false} ExportMatchesComplete(blocks: seq<BlockSite>)
    ensures forall j, m | 0 <= j < |blocks| && m in BlockExports(blocks[j]) :: m in ExportMatches(blocks)
  {
    if blocks != [] {
      ExportMatchesComplete(blocks[1..]);
      assert ExportMatches(blocks) == BlockExports(blocks[0]) + ExportMatches(blocks[1..]);
      forall j | 1 <= j < |blocks| ensures blocks[1..][j - 1] == blocks[j] { }
    }
  }

  method ExportProperties(ret: map<string, Entry>, properties: seq<Node>, scope: ScopeId)
    returns (ret': map<string, Entry>)
    ensures ret' == CollectFrom(ret, PropertyExports(properties, scope))
  {
    ret' := ret;
    for n := 0 to |properties|
      invariant CollectFrom(ret', PropertyExports(properties[n..], scope)) == CollectFrom(ret, PropertyExports(properties, scope))
    {
      assert properties[n..][0] == properties[n] && properties[n..][1..] == properties[n + 1..];
      var property := properties[n];
      CollectAppend(ret', PropertyExport(property, scope), PropertyExports(properties[n + 1..], scope));
      if !property.Property? { continue; }
      if !property.key.Identifier? { continue; }
      if !IsExpression(property.value) { continue; }
      ret' := ret'[property.key.name := Entry(property.value, scope)];
    }
  }

  method ExportReferences(ret: map<string, Entry>, refs: seq<Ref>, position: nat, scope: ScopeId)
    returns (ret': map<string, Entry>)
    requires position < 2
    ensures ret' == CollectFrom(ret, ReferencesExports(refs, position, scope))
  {
    ret' := ret;
    for n := 0 to |refs|
      invariant CollectFrom(ret', ReferencesExports(refs[n..], position, scope)) ==
                CollectFrom(ret, ReferencesExports(refs, position, scope))
    {
      assert refs[n..][0] == refs[n] && refs[n..][1..] == refs[n + 1..];
      var reference := refs[n];
      var rest := ReferencesExports(refs[n + 1..], position, scope);
      if position == 0 {
        CollectAppend(ret', ModuleReferenceExports(reference, scope), rest);
        if !reference.node.Identifier? { continue; }
        if !(reference.grandparent.Some? && reference.grandparent.value.AssignmentExpression?) { continue; }
        var exportsNode := reference.grandparent.value;
        if !exportsNode.left.MemberExpression? { continue; }
        if !exportsNode.left.property.Identifier? { continue; }
        if exportsNode.left.property.name != "exports" { continue; }
        var exports := exportsNode.right;
        if !exports.ObjectExpression? { continue; }
        ret' := ExportProperties(ret', exports.properties, scope);
      } else {
        CollectAppend(ret', ExportsReferenceExport(reference, scope), rest);
        if !reference.node.Identifier? { continue; }
        if reference.parent.None? { continue; }
        if !reference.parent.value.MemberExpression? { continue; }
        if !reference.parent.value.property.Identifier? { continue; }
        if !(reference.grandparent.Some? && reference.grandparent.value.AssignmentExpression?) { continue; }
        ret' := ret'[reference.parent.value.property.name := Entry(reference.grandparent.value.right, scope)];
      }
    }
  }

  /** `getExports(ast)` */
  method GetExports(blocks: seq<BlockSite>) returns (ret: map<string, Entry>)
    ensures ret == CollectFrom(map[], ExportMatches(blocks))
  {
    ret := map[];
    for n := 0 to |blocks|
      invariant CollectFrom(ret, ExportMatches(blocks[n..])) == CollectFrom(map[], ExportMatches(blocks))
    {
      assert blocks[n..][0] == blocks[n] && blocks[n..][1..] == blocks[n + 1..];
      var path := blocks[n];
      CollectAppend(ret, BlockExports(path), ExportMatches(blocks[n + 1..]));
      if !path.hasScope { continue; }
      var parent := GetParent(path.ancestors);
      if parent.None? { continue; }
      ret := ExportParams(ret, path, parent.value.params);
    }
  }

  method ExportParams(ret: map<string, Entry>, b: BlockSite, params: seq<Node>) returns (ret': map<string, Entry>)
    ensures ret' == CollectFrom(ret, ParamsExports(b, params, 0))
  {
    ret' := ret;
    for i := 0 to |params|
      invariant CollectFrom(ret', ParamsExports(b, params, i)) == CollectFrom(ret, ParamsExports(b, params, 0))
    {
      var param := params[i];
      assert ParamsExports(b, params, i) == ParamExports(b, param, i) + ParamsExports(b, params, i + 1);
      CollectAppend(ret', ParamExports(b, param, i), ParamsExports(b, params, i + 1));
      if !param.Identifier? { continue; }
      if param.name !in b.bindings { continue; }
      if i == 0 || i == 1 {
        ret' := ExportReferences(ret', b.bindings[param.name], i, b.scope);
      }
    }
  }

  // ---------------------------------------------------------------------
  // getImports

  /** A reference whose parent is a call with exactly one argument, a
      non-null literal, inside a declarator with an identifier id: that
      literal's text maps to the declared identifier. */
  function ReferenceImport(r: Ref, scope: ScopeId): (ms: seq<Match>)
    ensures |ms| <= 1
    ensures ms != [] <==>
      r.parent.Some? && r.parent.value.CallExpression? && |r.parent.value.arguments| == 1 &&
      r.grandparent.Some? && r.grandparent.value.VariableDeclarator? && r.grandparent.value.id.Identifier? &&
      r.parent.value.arguments[0].Literal? && r.parent.value.arguments[0].literal.Some?
    ensures ms != [] ==> ms[0] == Match(r.parent.value.arguments[0].literal.value, Entry(r.grandparent.value.id, scope))
  {
    if r.parent.None? || !r.parent.value.CallExpression? || |r.parent.value.arguments| != 1 then []
    else if r.grandparent.None? || !r.grandparent.value.VariableDeclarator? then []
    else
      var id := r.grandparent.value.id;
      var moduleId := r.parent.value.arguments[0];
      if id.Identifier? && moduleId.Literal? && moduleId.literal.Some?
      then [Match(moduleId.literal.value, Entry(id, scope))]
      else []
  }

  function ReferencesImports(refs: seq<Ref>, scope: ScopeId): (ms: seq<Match>)
    ensures forall i :: 0 <= i < |ms| ==> ms[i].entry.scope == scope && ms[i].entry.expression.Identifier?
  {
    if refs == [] then [] else ReferenceImport(refs[0], scope) + ReferencesImports(refs[1..], scope)
  }

  /** The block has a scope and a module wrapper whose third parameter is an
      identifier the block's scope binds itself. */
  predicate ImportsSite(b: BlockSite)
  {
    b.hasScope && Wrapper(b.ancestors).Some? &&
    var f := Wrapper(b.ancestors).value;
    |f.params| > 2 && f.params[2].Identifier? && f.params[2].name in b.ownBindings
  }

  /** The `BlockStatement` visitor of `getImports`: only parameter 2, and
      only the block scope's own binding of it. */
  function BlockImports(b: BlockSite): (ms: seq<Match>)
    ensures forall k :: 0 <= k < |ms| ==> FromBlock(ms[k], b) && ms[k].entry.expression.Identifier?
    ensures ms != [] ==> ImportsSite(b)
    ensures ImportsSite(b) ==> ms == ReferencesImports(b.ownBindings[Wrapper(b.ancestors).value.params[2].name], b.scope)
  {
    if !b.hasScope then []
    else
      match Wrapper(b.ancestors)
      case None => []
      case Some(f) =>
        if |f.params| <= 2 || !f.params[2].Identifier? || f.params[2].name !in b.ownBindings then []
        else ReferencesImports(b.ownBindings[f.params[2].name], b.scope)
  }

  /** The matches of all blocks, in traversal order; each binds a module id
      to a declared identifier, and comes from a block that has a scope and
      sits in a module wrapper. */
  function ImportMatches(blocks: seq<BlockSite>): (ms: seq<Match>)
    ensures forall k :: 0 <= k < |ms| ==> ms[k].entry.expression.Identifier?
    ensures forall k :: 0 <= k < |ms| ==> exists j :: 0 <= j < |blocks| && FromBlock(ms[k], blocks[j])
  {
    if blocks == [] then []
    else
      var head := BlockImports(blocks[0]);
      var tail := ImportMatches(blocks[1..]);
      assert forall k :: 0 <= k < |tail| ==> exists j :: 1 <= j < |blocks| && FromBlock(tail[k], blocks[j]) by {
        forall k | 0 <= k < |tail|
          ensures exists j :: 1 <= j < |blocks| && FromBlock(tail[k], blocks[j])
        {
          var j :| 0 <= j < |blocks[1..]| && FromBlock(tail[k], blocks[1..][j]);
          assert blocks[1..][j] == blocks[j + 1];
        }
      }
      head + tail
  }

  /** Every match of every reference is among the references' matches. */
  lemma {:induction false} ReferencesImportsComplete(refs: seq<Ref>, scope: ScopeId)
    ensures forall i, m | 0 <= i < |refs| && m in ReferenceImport(refs[i], scope) :: m in ReferencesImports(refs, scope)
  {
    if refs != [] {
      ReferencesImportsComplete(refs[1..], scope);
      assert ReferencesImports(refs, scope) == ReferenceImport(refs[0], scope) + ReferencesImports(refs[1..], scope);
      forall i | 1 <= i < |refs| ensures refs[1..][i - 1] == refs[i] { }
    }
  }

  /** Every match of every block is among the blocks' matches. */
  lemma {:induction false} ImportMatchesComplete(blocks: seq<BlockSite>)
    ensures forall j, m | 0 <= j < |blocks| && m in BlockImports(blocks[j]) :: m in ImportMatches(blocks)
  {
    if blocks != [] {
      ImportMatchesComplete(blocks[1..]);
      assert ImportMatches(blocks) == BlockImports(blocks[0]) + ImportMatches(blocks[1..]);
      forall j | 1 <= j < |blocks| ensures blocks[1..][j - 1] == blocks[j] { }
    }
  }

  /** `getImports(ast)` */
  method GetImports(blocks: seq<BlockSite>) returns (ret: map<string, Entry>)
    ensures ret == CollectFrom(map[], ImportMatches(blocks))
  {
    ret := map[];
    for n := 0 to |blocks|
      invariant CollectFrom(ret, ImportMatches(blocks[n..])) == CollectFrom(map[], ImportMatches(blocks))
    {
      assert blocks[n..][0] == blocks[n] && blocks[n..][1..] == blocks[n + 1..];
      var path := blocks[n];
      CollectAppend(ret, BlockImports(path), ImportMatches(blocks[n + 1..]));
      if !path.hasScope { continue; }
      var parent := GetParent(path.ancestors);
      if parent.None? { continue; }
      var params := parent.value.params;
      if |params| <= 2 || !params[2].Identifier? { continue; }
      if params[2].name !in path.ownBindings { continue; }
      var references := path.ownBindings[params[2].name];
      ghost var atBlock := ret;
      for m := 0 to |references|
        invariant CollectFrom(ret, ReferencesImports(references[m..], path.scope)) ==
                  CollectFrom(atBlock, ReferencesImports(references, path.scope))
      {
        assert references[m..][0] == references[m] && references[m..][1..] == references[m + 1..];
        var reference := references[m];
        CollectAppend(ret, ReferenceImport(reference, path.scope), ReferencesImports(references[m + 1..], path.scope));
        if !(reference.parent.Some? && reference.parent.value.CallExpression?) { continue; }
        if |reference.parent.value.arguments| != 1 { continue; }
        if !(reference.grandparent.Some? && reference.grandparent.value.VariableDeclarator?) { continue; }
        if !reference.grandparent.value.id.Identifier? { continue; }
        var moduleId := reference.parent.value.arguments[0];
        if !moduleId.Literal? { continue; }
        if moduleId.literal.None? { continue; }
        ret := ret[moduleId.literal.value := Entry(reference.grandparent.value.id, path.scope)];
      }
    }
  }

  // ---------------------------------------------------------------------
  // getPropertyGetters

  /** `arguments.find(is.objectExpression)` */
  function FirstObject(arguments: seq<Node>): (r: Option<Node>)
    ensures r.None? <==> forall i :: 0 <= i < |arguments| ==> !arguments[i].ObjectExpression?
    ensures r.Some? ==> r.value.ObjectExpression?
    ensures r.Some? ==>
              exists i :: 0 <= i < |arguments| && arguments[i] == r.value &&
                forall j :: 0 <= j < i ==> !arguments[j].ObjectExpression?
  {
    if arguments == [] then None
    else if arguments[0].ObjectExpression? then Some(arguments[0])
    else
      var r := FirstObject(arguments[1..]);
      if r.Some? then
        var i :| 0 <= i < |arguments[1..]| && arguments[1..][i] == r.value &&
          forall j :: 0 <= j < i ==> !arguments[1..][j].ObjectExpression?;
        assert arguments[i + 1] == r.value;
        r
      else
        assert forall i :: 1 <= i < |arguments| ==> arguments[i] == arguments[1..][i - 1];
        r
  }

  /** `body.find(is.returnStatement)` */
  function FirstReturn(statements: seq<Node>): (r: Option<Node>)
    ensures r.None? <==> forall i :: 0 <= i < |statements| ==> !statements[i].ReturnStatement?
    ensures r.Some? ==> r.value.ReturnStatement?
    ensures r.Some? ==>
              exists i :: 0 <= i < |statements| && statements[i] == r.value &&
                forall j :: 0 <= j < i ==> !statements[j].ReturnStatement?
  {
    if statements == [] then None
    else if statements[0].ReturnStatement? then Some(statements[0])
    else
      var r := FirstReturn(statements[1..]);
      if r.Some? then
        var i :| 0 <= i < |statements[1..]| && statements[1..][i] == r.value &&
          forall j :: 0 <= j < i ==> !statements[1..][j].ReturnStatement?;
        assert statements[i + 1] == r.value;
        r
      else
        assert forall i :: 1 <= i < |statements| ==> statements[i] == statements[1..][i - 1];
        r
  }

  /** The properties of the object literal a qualifying `.d(...)` call defines
      getters with, or None when this call site does not qualify. */
  function GetterDefinition(site: CallSite): (r: Option<seq<Node>>)
    ensures r.Some? <==>
      site.hasScope && site.node.CallExpression? && site.node.callee.MemberExpression? &&
      site.node.callee.property.Identifier? && site.node.callee.property.name == "d" &&
      FirstObject(site.node.arguments).Some?
    ensures r.Some? ==> r.value == FirstObject(site.node.arguments).value.properties
  {
    if !site.hasScope || !site.node.CallExpression? then None
    else
      var callee := site.node.callee;
      if !callee.MemberExpression? || !callee.property.Identifier? || callee.property.name != "d" then None
      else
        match FirstObject(site.node.arguments)
        case None => None
        case Some(arg) => Some(arg.properties)
  }

  /** An identifier-keyed property whose value is a function with a block
      body whose first `return` has an argument: that argument is the getter. */
  function PropertyGetter(property: Node, scope: ScopeId): (ms: seq<Match>)
    ensures |ms| <= 1
    ensures ms != [] <==>
      property.Property? && property.key.Identifier? && property.value.FunctionExpression? &&
      property.value.functionBody.BlockStatement? &&
      FirstReturn(property.value.functionBody.body).Some? &&
      FirstReturn(property.value.functionBody.body).value.argument.Some?
    ensures ms != [] ==>
      ms[0] == Match(property.key.name, Entry(FirstReturn(property.value.functionBody.body).value.argument.value, scope))
  {
    if !property.Property? || !property.key.Identifier? || !property.value.FunctionExpression? then []
    else if !property.value.functionBody.BlockStatement? then []
    else
      match FirstReturn(property.value.functionBody.body)
      case None => []
      case Some(returnStatement) =>
        if returnStatement.argument.None? then []
        else [Match(property.key.name, Entry(returnStatement.argument.value, scope))]
  }

  function PropertyGetters(properties: seq<Node>, scope: ScopeId): (ms: seq<Match>)
    ensures forall k :: 0 <= k < |ms| ==> ms[k].entry.scope == scope
  {
    if properties == [] then [] else PropertyGetter(properties[0], scope) + PropertyGetters(properties[1..], scope)
  }

  /** Traversal stops at the first qualifying call site. */
  function GetterMatches(sites: seq<CallSite>): (ms: seq<Match>)
    ensures forall k :: 0 <= k < |ms| ==>
              exists j :: 0 <= j < |sites| && GetterDefinition(sites[j]).Some? && ms[k].entry.scope == sites[j].scope
  {
    if sites == [] then []
    else
      match GetterDefinition(sites[0])
      case Some(properties) => PropertyGetters(properties, sites[0].scope)
      case None =>
        var rest := GetterMatches(sites[1..]);
        assert forall k :: 0 <= k < |rest| ==>
              exists j :: 0 <= j < |sites[1..]| && GetterDefinition(sites[1..][j]).Some? && rest[k].entry.scope == sites[1..][j].scope;
        assert forall k :: 0 <= k < |rest| ==>
                 exists j :: 0 <= j < |sites| && GetterDefinition(sites[j]).Some? && rest[k].entry.scope == sites[j].scope by {
          forall k | 0 <= k < |rest|
            ensures exists j :: 0 <= j < |sites| && GetterDefinition(sites[j]).Some? && rest[k].entry.scope == sites[j].scope
          {
            var j :| 0 <= j < |sites[1..]| && GetterDefinition(sites[1..][j]).Some? && rest[k].entry.scope == sites[1..][j].scope;
            assert sites[1..][j] == sites[j + 1];
          }
        }
        rest
  }

  /** Only the first call site that qualifies contributes getters; when no
      site qualifies there are none. */
  lemma {:induction false} OnlyFirstDefinitionCounts(sites: seq<CallSite>, i: nat)
    requires i < |sites| && GetterDefinition(sites[i]).Some?
    requires forall j :: 0 <= j < i ==> GetterDefinition(sites[j]).None?
    ensures GetterMatches(sites) == PropertyGetters(GetterDefinition(sites[i]).value, sites[i].scope)
  {
    if i > 0 {
      OnlyFirstDefinitionCounts(sites[1..], i - 1);
    }
  }

  lemma {:induction false} NoDefinitionNoGetters(sites: seq<CallSite>)
    requires forall j :: 0 <= j < |sites| ==> GetterDefinition(sites[j]).None?
    ensures GetterMatches(sites) == []
  {
    if sites != [] {
      NoDefinitionNoGetters(sites[1..]);
    }
  }

  /** Every getter of every property is among the properties' getters. */
  lemma {:induction false} PropertyGettersComplete(properties: seq<Node>, scope: ScopeId)
    ensures forall j, m | 0 <= j < |properties| && m in PropertyGetter(properties[j], scope) ::
              m in PropertyGetters(properties, scope)
  {
    if properties != [] {
      PropertyGettersComplete(properties[1..], scope);
      assert PropertyGetters(properties, scope) == PropertyGetter(properties[0], scope) + PropertyGetters(properties[1..], scope);
      forall j | 1 <= j < |properties| ensures properties[1..][j - 1] == properties[j] { }
    }
  }

  method GetterProperties(ret: map<string, Entry>, properties: seq<Node>, scope: ScopeId)
    returns (ret': map<string, Entry>)
    ensures ret' == CollectFrom(ret, PropertyGetters(properties, scope))
  {
    ret' := ret;
    for n := 0 to |properties|
      invariant CollectFrom(ret', PropertyGetters(properties[n..], scope)) == CollectFrom(ret, PropertyGetters(properties, scope))
    {
      assert properties[n..][0] == properties[n] && properties[n..][1..] == properties[n + 1..];
      var property := properties[n];
      CollectAppend(ret', PropertyGetter(property, scope), PropertyGetters(properties[n + 1..], scope));
      if !property.Property? { continue; }
      if !property.key.Identifier? { continue; }
      if !property.value.FunctionExpression? { continue; }
      if !property.value.functionBody.BlockStatement? { continue; }
      var returnStatement := FirstReturn(property.value.functionBody.body);
      if returnStatement.None? || returnStatement.value.argument.None? { continue; }
      ret' := ret'[property.key.name := Entry(returnStatement.value.argument.value, scope)];
    }
  }

  /** `getPropertyGetters(ast)`, with `this.stop()` as leaving the loop. */
  method GetPropertyGetters(sites: seq<CallSite>) returns (ret: map<string, Entry>)
    ensures ret == CollectFrom(map[], GetterMatches(sites))
  {
    ret := map[];
    var n := 0;
    while n < |sites|
      invariant 0 <= n <= |sites|
      invariant GetterMatches(sites[n..]) == GetterMatches(sites)
    {
      assert sites[n..][0] == sites[n] && sites[n..][1..] == sites[n + 1..];
      var path := sites[n];
      n := n + 1;
      if !path.hasScope { continue; }
      if !path.node.CallExpression? { continue; }
      if !path.node.callee.MemberExpression? { continue; }
      if !path.node.callee.property.Identifier? { continue; }
      if path.node.callee.property.name != "d" { continue; }
      var arg := FirstObject(path.node.arguments);
      if arg.None? { continue; }
      ret := GetterProperties(ret, arg.value.properties, path.scope);
      return;
    }
  }

  // ---------------------------------------------------------------------
  // What the records hold

  /** A match that was made leaves its key in the record. */
  lemma KeyRecorded(m0: map<string, Entry>, ms: seq<Match>, x: Match)
    requires x in ms
    ensures x.key in CollectFrom(m0, ms)
  {
    var i :| 0 <= i < |ms| && ms[i] == x;
    CollectLastWins(m0, ms, x.key);
  }

  /** Whatever any block exports is a key of `getExports`' record. */
  lemma ExportFound(blocks: seq<BlockSite>, j: nat, m: Match)
    requires j < |blocks| && m in BlockExports(blocks[j])
    ensures m.key in CollectFrom(map[], ExportMatches(blocks))
  {
    ExportMatchesComplete(blocks);
    KeyRecorded(map[], ExportMatches(blocks), m);
  }

  /** Whatever any block imports is a key of `getImports`' record. */
  lemma ImportFound(blocks: seq<BlockSite>, j: nat, m: Match)
    requires j < |blocks| && m in BlockImports(blocks[j])
    ensures m.key in CollectFrom(map[], ImportMatches(blocks))
  {
    ImportMatchesComplete(blocks);
    KeyRecorded(map[], ImportMatches(blocks), m);
  }

  /** Every getter of the first qualifying call site is a key of
      `getPropertyGetters`' record. */
  lemma GetterFound(sites: seq<CallSite>, i: nat, m: Match)
    requires i < |sites| && GetterDefinition(sites[i]).Some?
    requires forall j :: 0 <= j < i ==> GetterDefinition(sites[j]).None?
    requires m in PropertyGetters(GetterDefinition(sites[i]).value, sites[i].scope)
    ensures m.key in CollectFrom(map[], GetterMatches(sites))
  {
    OnlyFirstDefinitionCounts(sites, i);
    KeyRecorded(map[], GetterMatches(sites), m);
  }

  /** A wrapper `function (module) { ... }` whose one reference to `module`
      sits in `module.exports = {key: value}` exports exactly `key`. */
  lemma ModuleExportsObject(b: BlockSite, moduleName: string, body: Node, key: string, value: Node)
    requires b.hasScope && Wrapper(b.ancestors) == Some(FunctionExpression([Identifier(moduleName)], body))
    requires IsExpression(value)
    requires b.bindings == map[moduleName := [Ref(
               Identifier(moduleName),
               Some(MemberExpression(Identifier(moduleName), Identifier("exports"))),
               Some(AssignmentExpression(MemberExpression(Identifier(moduleName), Identifier("exports")),
                                         ObjectExpression([Property(Identifier(key), value)]))))]]
    ensures CollectFrom(map[], ExportMatches([b])) == map[key := Entry(value, b.scope)]
  {
    var r := b.bindings[moduleName][0];
    var found := [Match(key, Entry(value, b.scope))];
    assert PropertyExports([Property(Identifier(key), value)], b.scope) == found;
    assert ModuleReferenceExports(r, b.scope) == found;
    assert ReferencesExports([r], 0, b.scope) == found;
    assert ParamsExports(b, [Identifier(moduleName)], 1) == [];
    assert ParamsExports(b, [Identifier(moduleName)], 0) == found;
    assert ExportMatches([b]) == found;
  }

  /** Every export in the record was found in a block that has a scope and
      sits in a module wrapper, and carries that block's scope. */
  lemma ExportsResult(blocks: seq<BlockSite>)
    ensures forall k <- CollectFrom(map[], ExportMatches(blocks)) ::
              exists j :: 0 <= j < |blocks| && FromBlock(Match(k, CollectFrom(map[], ExportMatches(blocks))[k]), blocks[j])
  {
    var ms := ExportMatches(blocks);
    CollectEntries(map[], ms);
    forall k <- CollectFrom(map[], ms)
      ensures exists j :: 0 <= j < |blocks| && FromBlock(Match(k, CollectFrom(map[], ms)[k]), blocks[j])
    {
      var i :| 0 <= i < |ms| && ms[i] == Match(k, CollectFrom(map[], ms)[k]);
    }
  }

  /** Every import in the record maps a module id to a declared identifier
      in a block that has a scope and sits in a module wrapper. */
  lemma ImportsResult(blocks: seq<BlockSite>)
    ensures forall k <- CollectFrom(map[], ImportMatches(blocks)) ::
              CollectFrom(map[], ImportMatches(blocks))[k].expression.Identifier? &&
              exists j :: 0 <= j < |blocks| && FromBlock(Match(k, CollectFrom(map[], ImportMatches(blocks))[k]), blocks[j])
  {
    var ms := ImportMatches(blocks);
    CollectEntries(map[], ms);
    forall k <- CollectFrom(map[], ms)
      ensures CollectFrom(map[], ms)[k].expression.Identifier? &&
              exists j :: 0 <= j < |blocks| && FromBlock(Match(k, CollectFrom(map[], ms)[k]), blocks[j])
    {
      var i :| 0 <= i < |ms| && ms[i] == Match(k, CollectFrom(map[], ms)[k]);
    }
  }

  /** Every getter in the record carries the scope of a call site that
      defines getters. */
  lemma GettersResult(sites: seq<CallSite>)
    ensures forall k <- CollectFrom(map[], GetterMatches(sites)) ::
              exists j :: 0 <= j < |sites| && GetterDefinition(sites[j]).Some? &&
                CollectFrom(map[], GetterMatches(sites))[k].scope == sites[j].scope
  {
    var ms := GetterMatches(sites);
    CollectEntries(map[], ms);
    forall k <- CollectFrom(map[], ms)
      ensures exists j :: 0 <= j < |sites| && GetterDefinition(sites[j]).Some? &&
                CollectFrom(map[], ms)[k].scope == sites[j].scope
    {
      var i :| 0 <= i < |ms| && ms[i] == Match(k, CollectFrom(map[], ms)[k]);
    }
  }
}

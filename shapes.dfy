/** The syntax tree as the recognisers of src/utils.ts see it (node kinds
    named as in ESTree), and `getParent`, the upward walk that finds the
    factory function a block belongs to. */
module Shapes {
  import opened Wrappers

  datatype Node =
    | Identifier(name: string)
    /** A literal, given by the string its value converts to; None for null. */
    | Literal(literal: Option<string>)
    | MemberExpression(object: Node, property: Node)
    | AssignmentExpression(left: Node, right: Node)
    | CallExpression(callee: Node, arguments: seq<Node>)
    | ObjectExpression(properties: seq<Node>)
    | Property(key: Node, value: Node)
    | SpreadElement(spread: Node)
    | FunctionExpression(params: seq<Node>, functionBody: Node)
    | BlockStatement(body: seq<Node>)
    | ReturnStatement(argument: Option<Node>)
    | ExpressionStatement(expression: Node)
    | VariableDeclarator(id: Node, init: Option<Node>)
    | Program(body: seq<Node>)
    /** Any other kind, and whether ESTree counts it as an expression. */
    | OtherNode(kind: string, isExpression: bool)

  /** `is.expression` */
  predicate IsExpression(n: Node)
  {
    match n
    case Identifier(_) => true
    case Literal(_) => true
    case MemberExpression(_, _) => true
    case AssignmentExpression(_, _) => true
    case CallExpression(_, _) => true
    case ObjectExpression(_) => true
    case FunctionExpression(_, _) => true
    case OtherNode(_, isExpression) => isExpression
    case _ => false
  }

  /** The ancestors of a block, nearest first: `ancestors[0]` is the node of
      `path.parentPath`, `ancestors[1]` its parent's, and so on. A path whose
      node is null appears as None; the sequence ends where `parentPath` is
      null. */
  type Ancestors = seq<Option<Node>>

  predicate IsProgramAt(ancestors: Ancestors, k: int)
  {
    0 <= k < |ancestors| && ancestors[k].Some? && ancestors[k].value.Program?
  }

  /** The kinds the walk may pass through. */
  predicate WalkKind(n: Node)
  {
    n.FunctionExpression? || n.ExpressionStatement? || n.CallExpression? || n.Program?
  }

  /** The walk from position `k` reaches a Program through permitted kinds only. */
  predicate ClimbsToProgram(ancestors: Ancestors, k: nat)
    decreases |ancestors| - k
  {
    if k >= |ancestors| || ancestors[k].None? || !WalkKind(ancestors[k].value) then false
    else if ancestors[k].value.Program? then true
    else ClimbsToProgram(ancestors, k + 1)
  }

  /** What `getParent` returns for a block with these ancestors. */
  function Wrapper(ancestors: Ancestors): (r: Option<Node>)
    ensures r.Some? ==> r.value.FunctionExpression?
  {
    if |ancestors| > 0 && ancestors[0].Some? && ancestors[0].value.FunctionExpression? && ClimbsToProgram(ancestors, 1)
    then ancestors[0]
    else None
  }

  /** The walk above the direct parent: every ancestor from the grandparent
      up to the first Program is present and of a permitted kind. */
  ghost predicate ReachesProgram(ancestors: Ancestors)
  {
    exists k :: 1 <= k && IsProgramAt(ancestors, k) &&
      forall j :: 1 <= j < k ==> ancestors[j].Some? && WalkKind(ancestors[j].value) && !ancestors[j].value.Program?
  }

  lemma {:induction false} ClimbsMeaning(ancestors: Ancestors, k: nat)
    requires k >= 1
    ensures ClimbsToProgram(ancestors, k) <==>
      exists m :: k <= m && IsProgramAt(ancestors, m) &&
        forall j :: k <= j < m ==> ancestors[j].Some? && WalkKind(ancestors[j].value) && !ancestors[j].value.Program?
    decreases |ancestors| - k
  {
    if k >= |ancestors| || ancestors[k].None? || !WalkKind(ancestors[k].value) {
    } else if ancestors[k].value.Program? {
      assert IsProgramAt(ancestors, k);
    } else {
      ClimbsMeaning(ancestors, k + 1);
      if ClimbsToProgram(ancestors, k + 1) {
        var m :| k + 1 <= m && IsProgramAt(ancestors, m) &&
          forall j :: k + 1 <= j < m ==> ancestors[j].Some? && WalkKind(ancestors[j].value) && !ancestors[j].value.Program?;
        assert forall j :: k <= j < m ==> ancestors[j].Some? && WalkKind(ancestors[j].value) && !ancestors[j].value.Program?;
      }
      if exists m :: k <= m && IsProgramAt(ancestors, m) &&
          forall j :: k <= j < m ==> ancestors[j].Some? && WalkKind(ancestors[j].value) && !ancestors[j].value.Program? {
        var m :| k <= m && IsProgramAt(ancestors, m) &&
          forall j :: k <= j < m ==> ancestors[j].Some? && WalkKind(ancestors[j].value) && !ancestors[j].value.Program?;
        assert m != k;
        assert forall j :: k + 1 <= j < m ==> ancestors[j].Some? && WalkKind(ancestors[j].value) && !ancestors[j].value.Program?;
      }
    }
  }

  /** `getParent` finds a wrapper exactly when the direct parent is a
      function expression and the walk from the grandparent reaches the
      Program through permitted kinds; the wrapper is that direct parent.
      In particular a block directly under the Program has none. */
  lemma WrapperSpec(ancestors: Ancestors)
    ensures Wrapper(ancestors).Some? <==>
      |ancestors| > 0 && ancestors[0].Some? && ancestors[0].value.FunctionExpression? && ReachesProgram(ancestors)
    ensures Wrapper(ancestors).Some? ==> Wrapper(ancestors) == ancestors[0]
    ensures IsProgramAt(ancestors, 0) ==> Wrapper(ancestors).None?
  {
    ClimbsMeaning(ancestors, 1);
  }

  /** `getParent(path)` with the `while` loop that climbs `parentPath`. */
  method GetParent(ancestors: Ancestors) returns (r: Option<Node>)
    ensures r == Wrapper(ancestors)
  {
    var k := 0;
    while !IsProgramAt(ancestors, k)
      invariant 0 <= k <= |ancestors|
      invariant k >= 1 ==> k < |ancestors| && ancestors[k].Some? && WalkKind(ancestors[k].value) &&
                           (ClimbsToProgram(ancestors, 1) <==> ClimbsToProgram(ancestors, k))
      decreases |ancestors| - k
    {
      k := k + 1;
      if k >= |ancestors| || ancestors[k].None? || !WalkKind(ancestors[k].value) {
        return None;
      }
    }
    if |ancestors| > 0 && ancestors[0].Some? && ancestors[0].value.FunctionExpression? {
      return ancestors[0];
    }
    return None;
  }
}

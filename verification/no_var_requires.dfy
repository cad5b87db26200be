/**
  Rule no-var-requires: a `require(...)` call whose value initializes a
  variable (`const x = require('y')`) should be an import statement instead.
 */
module NoVarRequires {
  import opened Estree
  import opened Diagnostics

  const RequireMessage := "Require statement not part of import statement."

  /** `node.callee.name === 'require' && node.parent.type === 'VariableDeclarator'`. */
  predicate IsVarRequire(call: Node)
    requires call.CallExpression?
  {
    Name(call.callee) == Some("require") && call.parentType == "VariableDeclarator"
  }

  /** The handler map returned by `create`: only CallExpression has a handler. */
  function Handle(node: Node): (r: seq<Diagnostic>)
    ensures !node.CallExpression? ==> r == []
    ensures |r| <= 1
    ensures |r| == 1 <==>
              node.CallExpression? && node.callee == Identifier(node.callee.nodeId, "require")
              && node.parentType == "VariableDeclarator"
    ensures |r| == 1 ==> r[0] == Diagnostic(AtNode(node), MessageText(RequireMessage), map[])
  {
    if node.CallExpression? && IsVarRequire(node) then
      [Diagnostic(AtNode(node), MessageText(RequireMessage), map[])]
    else
      []
  }

  /** A callee without a name, such as `m.require`, is never reported. */
  lemma NamelessCalleeIgnored(node: Node)
    requires node.CallExpression? && !node.callee.Identifier?
    ensures Handle(node) == []
  {
  }

  /** `const x = require('y')` is reported; the same call as a statement, or
      as the object of `require('y').foo`, or an import declaration, is not. */
  lemma RequireScenarios(callee: Node)
    requires callee == Identifier(2, "require")
    ensures |Handle(CallExpression(1, callee, "VariableDeclarator"))| == 1
    ensures Handle(CallExpression(1, callee, "ExpressionStatement")) == []
    ensures Handle(CallExpression(1, callee, "MemberExpression")) == []
    ensures Handle(Other(3, "ImportDeclaration")) == []
  {
  }
}

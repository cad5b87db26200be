/**
  The slice of the ESTree / TypeScript-ESTree syntax tree that the four lint
  rules read.  The tree itself is produced by the parser and is an input here:
  every node carries an identity (`nodeId`) and the attributes a rule looks at.
  A node's `parent` back-reference is not stored in the tree; the one rule that
  follows it (no-var-requires) only reads the parent's `type` tag, which a
  CallExpression therefore carries as `parentType`.
 */
module Estree {

  /** An optional value: the TypeScript `undefined` of an absent attribute. */
  datatype Option<+T> = None | Some(value: T)

  type NodeId = nat

  /** The `accessibility` modifier of a class member (`public`, `protected`, `private`). */
  datatype Accessibility = Public | Protected | Private

  datatype Node =
    | Program(nodeId: NodeId)
    | ClassProperty(nodeId: NodeId, key: Node, accessibility: Option<Accessibility>)
    | MethodDefinition(nodeId: NodeId, key: Node, accessibility: Option<Accessibility>)
    | VariableDeclarator(nodeId: NodeId, id: Node, init: Option<Node>)
    | CallExpression(nodeId: NodeId, callee: Node, parentType: string)
    | MemberExpression(nodeId: NodeId, obj: Node, property: Node)
    | Identifier(nodeId: NodeId, name: string)
    | ThisExpression(nodeId: NodeId)
    | ObjectPattern(nodeId: NodeId)
    | ArrayPattern(nodeId: NodeId)
    | Literal(nodeId: NodeId, raw: string)
    | Other(nodeId: NodeId, typeName: string)

  /** The `name` attribute of a node: only an Identifier has one. */
  function Name(n: Node): (r: Option<string>)
    ensures r.Some? <==> n.Identifier?
    ensures n.Identifier? ==> r == Some(n.name)
  {
    match n
    case Identifier(_, name) => Some(name)
    case _ => None
  }

  /** A comment token: `//` comments are `Line`, `/* */` comments are `Block`.
      `value` is the text without the comment delimiters. */
  datatype CommentKind = Line | Block

  datatype Comment = Comment(commentId: nat, kind: CommentKind, value: string)
}

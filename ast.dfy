/**
 * The parsed Java fragment as the metric visitors see it: one node per syntax
 * node, with the node kinds the visitors react to and a generic kind for the rest.
 */
module Ast {

  import opened Wrappers

  /** What a NameExpr's parent node is; only the access kinds matter to the operand count. */
  datatype ParentKind = NoParent | FieldAccess | MethodCall | ArrayAccess | OtherParent

  /** The constants of JavaParser's BinaryExpr.Operator enum. */
  datatype BinaryOperator =
    | Or | And | BinaryOr | BinaryAnd | Xor
    | Equals | NotEquals | Less | Greater | LessEquals | GreaterEquals
    | LeftShift | SignedRightShift | UnsignedRightShift
    | Plus | Minus | Multiply | Divide | Remainder

  /** Enum.name() of an operator: the constant's declared name. */
  function OperatorName(op: BinaryOperator): string {
    match op
    case Or => "OR"
    case And => "AND"
    case BinaryOr => "BINARY_OR"
    case BinaryAnd => "BINARY_AND"
    case Xor => "XOR"
    case Equals => "EQUALS"
    case NotEquals => "NOT_EQUALS"
    case Less => "LESS"
    case Greater => "GREATER"
    case LessEquals => "LESS_EQUALS"
    case GreaterEquals => "GREATER_EQUALS"
    case LeftShift => "LEFT_SHIFT"
    case SignedRightShift => "SIGNED_RIGHT_SHIFT"
    case UnsignedRightShift => "UNSIGNED_RIGHT_SHIFT"
    case Plus => "PLUS"
    case Minus => "MINUS"
    case Multiply => "MULTIPLY"
    case Divide => "DIVIDE"
    case Remainder => "REMAINDER"
  }

  /**
   * The kind of a syntax node. Literal kinds carry the literal's value text
   * as the parser reports it (getValue()); a SwitchEntry carries the text of
   * the first token of its token range, when that range is present.
   */
  datatype Kind =
    | BooleanLiteral(value: bool)
    | CharLiteral(text: string)
    | IntegerLiteral(text: string)
    | DoubleLiteral(text: string)
    | LongLiteral(text: string)
    | StringLiteral(text: string)
    | NullLiteral
    | NameExpr(name: string, parent: ParentKind)
    | VariableDeclarator(name: string)
    | IfStmt
    | CatchClause
    | ForStmt
    | ForEachStmt
    | WhileStmt
    | DoStmt
    | SwitchEntry(firstToken: Option<string>)
    | ConditionalExpr
    | BinaryExpr(operator: BinaryOperator)
    | OtherNode

  /** A node owns its children, in the order the visitor adapter visits them. */
  datatype Node = Node(kind: Kind, children: seq<Node>)

  /**
   * The order in which a visitor that handles a node and then calls
   * super.visit meets the nodes: the node itself, then each child's
   * subtree, left to right.
   */
  function PreOrder(n: Node): (r: seq<Node>)
    ensures |r| >= 1 && r[0] == n
    decreases n, 1
  {
    [n] + ChildrenPreOrder(n, |n.children|)
  }

  /** The pre-order sequences of the first k children of n, one after the other. */
  function ChildrenPreOrder(n: Node, k: nat): seq<Node>
    requires k <= |n.children|
    decreases n, 0, k
  {
    if k == 0 then [] else ChildrenPreOrder(n, k - 1) + PreOrder(n.children[k - 1])
  }
}

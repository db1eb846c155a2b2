/**
 * The syntax tree the interpreter walks: node kinds (`Nodes`), the operator
 * enumerations, and the expression and statement nodes with the fields the
 * evaluators read.
 */
module Ast {
  import opened Wrappers
  import opened Numbers
  import opened JsValues

  /** The node kinds (`Node.Type`) the dispatchers switch on. */
  datatype Nodes =
    | AssignmentExpression | ArrayExpression | BinaryExpression | CallExpression
    | ConditionalExpression | FunctionExpression | Identifier | Literal
    | LogicalExpression | MemberExpression | NewExpression | ObjectExpression
    | SequenceExpression | ThisExpression | UpdateExpression | UnaryExpression
    | BlockStatement | BreakStatement | ContinueStatement | DoWhileStatement
    | EmptyStatement | ExpressionStatement | ForStatement | ForInStatement
    | FunctionDeclaration | IfStatement | LabeledStatement | ReturnStatement
    | SwitchStatement | ThrowStatement | TryStatement | VariableDeclaration
    | WhileStatement | WithStatement | Program
    | OtherNode(name: string)   // kinds no dispatcher handles (class bodies, templates, ...)

  /** `BinaryOperator`, in declaration order (the misspelt member is kept). */
  datatype BinaryOperator =
    | Plus | Minus | Times | Divide | Modulo | Equal | NotEqual | Greater
    | GreaterOrEqual | Less | LessOrEqual | StrictlyEqual | StricltyNotEqual
    | BitwiseAnd | BitwiseOr | BitwiseXOr | LeftShift | RightShift
    | UnsignedRightShift | InstanceOf | In | LogicalAnd | LogicalOr

  /** `UnaryOperator`, in declaration order. */
  datatype UnaryOperator =
    | UnaryPlus | UnaryMinus | BitwiseNot | LogicalNot | Delete | Void | TypeOf
    | Increment | Decrement

  /** `AssignmentOperator`. */
  datatype AssignmentOperator =
    | Assign | PlusAssign | MinusAssign | TimesAssign | DivideAssign | ModuloAssign
    | BitwiseAndAssign | BitwiseOrAssign | BitwiseXOrAssign | LeftShiftAssign
    | RightShiftAssign | UnsignedRightShiftAssign
    | OtherAssign   // operators the evaluator does not implement (`**=`)

  /** A literal's token type and cooked value. */
  datatype LiteralValue =
    | BooleanLiteral(truth: bool)
    | NullLiteral
    | NumericLiteral(number: Num)
    | StringLiteral(text: string)
    | RegularExpressionLiteral(pattern: string, flags: string)
    | OtherLiteral(raw: string)   // a token type the evaluator hands to CLR marshalling

  /** `PropertyKind` of an object-literal member. */
  datatype PropertyKind = Init | Data | Get | Set | OtherKind

  /** A function literal: its optional name, its strictness and an identity for its body. */
  datatype FunctionInfo = FunctionInfo(id: Option<string>, strict: bool, body: nat)

  datatype Expression =
    | Literal(literal: LiteralValue)
    | Identifier(name: string)
    | This
    | Function(info: FunctionInfo)
    /** `new BinaryExpression(op, left, right)` fixes `nodeType` (Binary or Logical). */
    | Binary(nodeType: Nodes, op: BinaryOperator, left: Expression, right: Expression)
    | Assignment(assignOp: AssignmentOperator, target: Expression, value: Expression)
    | Conditional(test: Expression, consequent: Expression, alternate: Expression)
    | Member(object: Expression, property: Expression, computed: bool)
    | Call(callee: Expression, arguments: seq<Expression>)
    | New(newCallee: Expression, newArguments: seq<Expression>)
    | Object(properties: seq<Property>)
    | Array(elements: seq<Option<Expression>>)
    | Sequence(expressions: seq<Expression>)
    /** Unary and update expressions share a class; `nodeType` tells them apart. */
    | Unary(unaryType: Nodes, unaryOp: UnaryOperator, argument: Expression, prefix: bool)
    | OtherExpression(otherType: Nodes)

  /** An object-literal member `key: value`, `get key() {}` or `set key(v) {}`. */
  datatype Property = Property(key: string, kind: PropertyKind, value: Expression)

  /** The node type an expression carries. */
  function ExpressionType(e: Expression): Nodes {
    match e
    case Literal(_) => Nodes.Literal
    case Identifier(_) => Nodes.Identifier
    case This => Nodes.ThisExpression
    case Function(_) => Nodes.FunctionExpression
    case Binary(t, _, _, _) => t
    case Assignment(_, _, _) => Nodes.AssignmentExpression
    case Conditional(_, _, _) => Nodes.ConditionalExpression
    case Member(_, _, _) => Nodes.MemberExpression
    case Call(_, _) => Nodes.CallExpression
    case New(_, _) => Nodes.NewExpression
    case Object(_) => Nodes.ObjectExpression
    case Array(_) => Nodes.ArrayExpression
    case Sequence(_) => Nodes.SequenceExpression
    case Unary(t, _, _, _) => t
    case OtherExpression(t) => t
  }

  datatype VariableDeclarator = VariableDeclarator(id: Expression, init: Option<Expression>)

  datatype SwitchCase = SwitchCase(test: Option<Expression>, consequent: seq<Statement>)

  datatype CatchClause = CatchClause(param: Expression, body: Statement)

  /** A `for` initialiser: absent, a `var` declaration (a statement), or an expression. */
  datatype ForInit =
    | NoInit
    | InitDeclaration(declarations: seq<VariableDeclarator>, declarationLocation: Location)
    | InitExpression(init: Expression)

  /** The left side of `for (left in right)`. */
  datatype ForInLeft =
    | LeftDeclaration(leftDeclarations: seq<VariableDeclarator>)
    | LeftExpression(leftExpression: Expression)

  /** A statement: its node and its source location (`Node.Location` is never null). */
  datatype Statement = Statement(node: StatementNode, location: Location)

  /** Loop and switch nodes carry the `LabelSet` name a parser attached, if any. */
  datatype StatementNode =
    | Block(body: seq<Statement>)
    | Break(breakLabel: Option<string>)
    | Continue(continueLabel: Option<string>)
    | DoWhile(doBody: Statement, doTest: Expression, doLabelSet: Option<string>)
    | Empty
    | ExpressionStmt(expression: Expression)
    | For(forInit: ForInit, forTest: Option<Expression>, update: Option<Expression>,
          forBody: Statement, forLabelSet: Option<string>)
    | ForIn(left: ForInLeft, right: Expression, forInBody: Statement, forInLabelSet: Option<string>)
    | FunctionDecl(declared: FunctionInfo)
    | If(ifTest: Expression, thenBranch: Statement, elseBranch: Option<Statement>)
    | Labeled(labelName: string, labeledBody: Statement)
    | Return(returnArgument: Option<Expression>)
    | Switch(discriminant: Expression, cases: seq<SwitchCase>, switchLabelSet: Option<string>)
    | Throw(throwArgument: Expression)
    | Try(block: Statement, handler: Option<CatchClause>, finalizer: Option<Statement>)
    | VarDecl(declarations: seq<VariableDeclarator>)
    | While(whileTest: Expression, whileBody: Statement, whileLabelSet: Option<string>)
    | With(withObject: Expression, withBody: Statement)
    | ProgramNode(programBody: seq<Statement>, strict: bool)
    | OtherStatement(otherStatementType: Nodes)

  /** The node type a statement carries. */
  function StatementType(s: Statement): Nodes {
    match s.node
    case Block(_) => Nodes.BlockStatement
    case Break(_) => Nodes.BreakStatement
    case Continue(_) => Nodes.ContinueStatement
    case DoWhile(_, _, _) => Nodes.DoWhileStatement
    case Empty => Nodes.EmptyStatement
    case ExpressionStmt(_) => Nodes.ExpressionStatement
    case For(_, _, _, _, _) => Nodes.ForStatement
    case ForIn(_, _, _, _) => Nodes.ForInStatement
    case FunctionDecl(_) => Nodes.FunctionDeclaration
    case If(_, _, _) => Nodes.IfStatement
    case Labeled(_, _) => Nodes.LabeledStatement
    case Return(_) => Nodes.ReturnStatement
    case Switch(_, _, _) => Nodes.SwitchStatement
    case Throw(_) => Nodes.ThrowStatement
    case Try(_, _, _) => Nodes.TryStatement
    case VarDecl(_) => Nodes.VariableDeclaration
    case While(_, _, _) => Nodes.WhileStatement
    case With(_, _) => Nodes.WithStatement
    case ProgramNode(_, _) => Nodes.Program
    case OtherStatement(t) => t
  }
}

/** `BinaryExpression`: the operator-string parser and the node constructor. */
module BinaryExpressions {
  import opened Wrappers
  import opened Ast

  /** The source text of each operator: the only string that parses to it. */
  function OperatorText(op: BinaryOperator): string {
    match op
    case Plus => "+"
    case Minus => "-"
    case Times => "*"
    case Divide => "/"
    case Modulo => "%"
    case Equal => "=="
    case NotEqual => "!="
    case Greater => ">"
    case GreaterOrEqual => ">="
    case Less => "<"
    case LessOrEqual => "<="
    case StrictlyEqual => "==="
    case StricltyNotEqual => "!=="
    case BitwiseAnd => "&"
    case BitwiseOr => "|"
    case BitwiseXOr => "^"
    case LeftShift => "<<"
    case RightShift => ">>"
    case UnsignedRightShift => ">>>"
    case InstanceOf => "instanceof"
    case In => "in"
    case LogicalAnd => "&&"
    case LogicalOr => "||"
  }

  /**
   * `ParseBinaryOperator`: one of the 23 operator strings gives its operator,
   * any other string throws a plain exception naming it.
   */
  function ParseBinaryOperator(op: string): (r: Result<BinaryOperator>)
    ensures r.Ok? ==> OperatorText(r.value) == op
    ensures r.Err? <==> (forall o: BinaryOperator :: OperatorText(o) != op)
    ensures r.Err? ==> r.error == ClrException(Generic("Invalid binary operator: " + op))
  {
    if op == "+" then Ok(Plus)
    else if op == "-" then Ok(Minus)
    else if op == "*" then Ok(Times)
    else if op == "/" then Ok(Divide)
    else if op == "%" then Ok(Modulo)
    else if op == "==" then Ok(Equal)
    else if op == "!=" then Ok(NotEqual)
    else if op == ">" then Ok(Greater)
    else if op == ">=" then Ok(GreaterOrEqual)
    else if op == "<" then Ok(Less)
    else if op == "<=" then Ok(LessOrEqual)
    else if op == "===" then Ok(StrictlyEqual)
    else if op == "!==" then Ok(StricltyNotEqual)
    else if op == "&" then Ok(BitwiseAnd)
    else if op == "|" then Ok(BitwiseOr)
    else if op == "^" then Ok(BitwiseXOr)
    else if op == "<<" then Ok(LeftShift)
    else if op == ">>" then Ok(RightShift)
    else if op == ">>>" then Ok(UnsignedRightShift)
    else if op == "instanceof" then Ok(InstanceOf)
    else if op == "in" then Ok(In)
    else if op == "&&" then Ok(LogicalAnd)
    else if op == "||" then Ok(LogicalOr)
    else Err(ClrException(Generic("Invalid binary operator: " + op)))
  }

  /** Every operator is recovered from its text. */
  lemma ParseOperatorText(op: BinaryOperator)
    ensures ParseBinaryOperator(OperatorText(op)) == Ok(op)
  {
  }

  /** Distinct accepted strings give distinct operators. */
  lemma ParseBinaryOperatorInjective(a: string, b: string)
    requires ParseBinaryOperator(a).Ok? && ParseBinaryOperator(b).Ok?
    requires a != b
    ensures ParseBinaryOperator(a).value != ParseBinaryOperator(b).value
  {
  }

  predicate IsLogical(op: BinaryOperator) { op == LogicalAnd || op == LogicalOr }

  /**
   * `new BinaryExpression(op, left, right)`: a Logical node for `&&` and
   * `||`, a Binary node otherwise, with both operands stored as given; the
   * parse error propagates.
   */
  function NewBinaryExpression(op: string, left: Expression, right: Expression): (r: Result<Expression>)
    ensures r.Err? <==> ParseBinaryOperator(op).Err?
    ensures r.Err? ==> r.error == ParseBinaryOperator(op).error
    ensures r.Ok? ==> r.value.Binary? && OperatorText(r.value.op) == op
    ensures r.Ok? ==> r.value.left == left && r.value.right == right
    ensures r.Ok? ==> (ExpressionType(r.value) == Nodes.LogicalExpression <==> op == "&&" || op == "||")
    ensures r.Ok? ==> (ExpressionType(r.value) == Nodes.BinaryExpression <==> !(op == "&&" || op == "||"))
  {
    var parsed := ParseBinaryOperator(op);
    if parsed.Err? then Err(parsed.error)
    else
      var operator := parsed.value;
      var nodeType := if IsLogical(operator) then Nodes.LogicalExpression else Nodes.BinaryExpression;
      Ok(Binary(nodeType, operator, left, right))
  }
}

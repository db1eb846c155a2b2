/** `UnaryExpression`: the operator-string parser and the node constructor. */
module UnaryExpressions {
  import opened Wrappers
  import opened Ast

  /** The source text of each operator: the only string that parses to it. */
  function OperatorText(op: UnaryOperator): string {
    match op
    case UnaryPlus => "+"
    case UnaryMinus => "-"
    case Increment => "++"
    case Decrement => "--"
    case BitwiseNot => "~"
    case LogicalNot => "!"
    case Delete => "delete"
    case Void => "void"
    case TypeOf => "typeof"
  }

  /**
   * `ParseUnaryOperator`: one of the nine operator strings gives its
   * operator, any other string throws a plain exception naming it.
   */
  function ParseUnaryOperator(op: string): (r: Result<UnaryOperator>)
    ensures r.Ok? ==> OperatorText(r.value) == op
    ensures r.Err? <==> (forall o: UnaryOperator :: OperatorText(o) != op)
    ensures r.Err? ==> r.error == ClrException(Generic("Invalid unary operator: " + op))
  {
    if op == "+" then Ok(UnaryPlus)
    else if op == "-" then Ok(UnaryMinus)
    else if op == "++" then Ok(Increment)
    else if op == "--" then Ok(Decrement)
    else if op == "~" then Ok(BitwiseNot)
    else if op == "!" then Ok(LogicalNot)
    else if op == "delete" then Ok(Delete)
    else if op == "void" then Ok(Void)
    else if op == "typeof" then Ok(TypeOf)
    else Err(ClrException(Generic("Invalid unary operator: " + op)))
  }

  /** Every operator is recovered from its text. */
  lemma ParseOperatorText(op: UnaryOperator)
    ensures ParseUnaryOperator(OperatorText(op)) == Ok(op)
  {
  }

  /** Distinct accepted strings give distinct operators. */
  lemma ParseUnaryOperatorInjective(a: string, b: string)
    requires ParseUnaryOperator(a).Ok? && ParseUnaryOperator(b).Ok?
    requires a != b
    ensures ParseUnaryOperator(a).value != ParseUnaryOperator(b).value
  {
  }

  /**
   * `new UnaryExpression(op, arg)`: a Unary node for the parsed operator
   * with the argument stored as given and `Prefix` set; the parse error
   * propagates.
   */
  function NewUnaryExpression(op: string, arg: Expression): (r: Result<Expression>)
    ensures r.Err? <==> ParseUnaryOperator(op).Err?
    ensures r.Err? ==> r.error == ParseUnaryOperator(op).error
    ensures r.Ok? ==> r.value.Unary? && OperatorText(r.value.unaryOp) == op
    ensures r.Ok? ==> ExpressionType(r.value) == Nodes.UnaryExpression
    ensures r.Ok? ==> r.value.argument == arg && r.value.prefix
  {
    var parsed := ParseUnaryOperator(op);
    if parsed.Err? then Err(parsed.error)
    else Ok(Unary(Nodes.UnaryExpression, parsed.value, arg, true))
  }
}

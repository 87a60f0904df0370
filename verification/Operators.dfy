/** Small wrappers shared by every module. */
module Wrappers {
  datatype Option<+T> = None | Some(value: T)

  datatype Result<+T, +E> = Ok(value: T) | Err(error: E) {
    predicate IsFailure() { Err? }
    function PropagateFailure<U>(): Result<U, E>
      requires Err?
    {
      Err(error)
    }
    function Extract(): T
      requires Ok?
    {
      value
    }
  }

  function Last<T>(s: seq<T>): T
    requires s != []
  {
    s[|s| - 1]
  }

  function Front<T>(s: seq<T>): seq<T>
    requires s != []
  {
    s[..|s| - 1]
  }

  lemma Assoc<T>(a: seq<T>, b: seq<T>, c: seq<T>)
    ensures a + b + c == a + (b + c)
  {
  }
}

/** The parser's internal operators, their precedence levels and the node
    operators they are compiled to. */
module Operators {
  import opened Wrappers

  datatype Operator =
    | Absolute | Add | AllEq | And | Ceil | Comma | Contains | Divide | DoesNotContain
    | Eq | Floor | Gt | GtEq | LeftParen | LeftSquareBracket | Length | Lt | LtEq
    | Modulo | Multiply | Not | NotEq | Or | Power | RightParen | RightSquareBracket
    | Round | Subscript | Subtract | UnaryMinus | Xor

  datatype ArithmeticOp = ABSOLUTE | ADD | SUBTRACT | MULTIPLY | DIVIDE | MODULO_TRUNC | POWER | UNARY_MINUS
  datatype ListOp = LENGTH | SUBSCRIPT
  datatype LogicalOp = AND | OR | XOR | NOT
  datatype RelationalOp = EQ | NOT_EQ | GT | GT_OR_EQ | LT | LT_OR_EQ | CONTAINS | DOES_NOT_CONTAIN | ALL_EQ
  datatype RoundingOp = CEIL | FLOOR | ROUND

  /** The operator carried by a combination node of the compiled configuration. */
  datatype NodeOperator =
    | Arithmetic(arithmetic: ArithmeticOp)
    | OnList(list: ListOp)
    | Logical(logical: LogicalOp)
    | Relational(relational: RelationalOp)
    | Rounding(rounding: RoundingOp)

  function Precedence(op: Operator): nat {
    match op
    case Comma | LeftParen | RightParen | LeftSquareBracket | RightSquareBracket => 0
    case Or => 4
    case And => 5
    case Xor => 7
    case Eq | NotEq => 9
    case Gt | GtEq | Lt | LtEq => 10
    case Add | Subtract | UnaryMinus => 12
    case Multiply | Divide | Modulo => 13
    case Not => 14
    case Power | AllEq | Contains | DoesNotContain | Floor | Round | Ceil | Absolute | Length | Subscript => 15
  }

  predicate IsFunctionLike(op: Operator) {
    op.AllEq? || op.Contains? || op.DoesNotContain? || op.Floor? || op.Round? || op.Ceil? || op.Absolute? || op.Length?
  }

  predicate IsUnary(op: Operator) {
    op.Floor? || op.Round? || op.Ceil? || op.Not? || op.Absolute? || op.UnaryMinus? || op.Length?
  }

  predicate IsComparison(op: Operator) {
    op.Eq? || op.NotEq? || op.Lt? || op.LtEq? || op.Gt? || op.GtEq?
  }

  predicate IsPrefix(op: Operator) {
    op.UnaryMinus? || op.Not?
  }

  /** The infix operators of the surface syntax. */
  predicate IsInfix(op: Operator) {
    op.Add? || op.And? || op.Divide? || op.Eq? || op.Gt? || op.GtEq? || op.Lt? || op.LtEq? || op.Modulo?
    || op.Multiply? || op.NotEq? || op.Or? || op.Power? || op.Subtract? || op.Xor?
  }

  /** Brackets and the comma: the operators that never become a node. */
  predicate IsPunctuation(op: Operator) {
    op.Comma? || op.LeftParen? || op.RightParen? || op.LeftSquareBracket? || op.RightSquareBracket?
  }

  /** What may lie on the operator stack. */
  predicate IsStackable(op: Operator) {
    !op.Comma? && !op.RightParen? && !op.RightSquareBracket?
  }

  function ToNodeOperator(op: Operator): NodeOperator
    requires !IsPunctuation(op)
  {
    match op
    case Absolute => Arithmetic(ABSOLUTE)
    case Add => Arithmetic(ADD)
    case AllEq => Relational(EQ)
    case And => Logical(AND)
    case Ceil => Rounding(CEIL)
    case Contains => Relational(CONTAINS)
    case Divide => Arithmetic(DIVIDE)
    case DoesNotContain => Relational(DOES_NOT_CONTAIN)
    case Eq => Relational(EQ)
    case Floor => Rounding(FLOOR)
    case Gt => Relational(GT)
    case GtEq => Relational(GT_OR_EQ)
    case Length => OnList(LENGTH)
    case Lt => Relational(LT)
    case LtEq => Relational(LT_OR_EQ)
    case Modulo => Arithmetic(MODULO_TRUNC)
    case Multiply => Arithmetic(MULTIPLY)
    case Not => Logical(NOT)
    case NotEq => Relational(NOT_EQ)
    case Or => Logical(OR)
    case Power => Arithmetic(POWER)
    case Round => Rounding(ROUND)
    case Subscript => OnList(SUBSCRIPT)
    case Subtract => Arithmetic(SUBTRACT)
    case UnaryMinus => Arithmetic(UNARY_MINUS)
    case Xor => Logical(XOR)
  }

  /** The validator's view of arity, on compiled operators. */
  predicate IsUnaryNodeOperator(op: NodeOperator) {
    match op
    case Arithmetic(a) => a.ABSOLUTE? || a.UNARY_MINUS?
    case OnList(l) => l.LENGTH?
    case Logical(l) => l.NOT?
    case Relational(_) => false
    case Rounding(_) => true
  }
}

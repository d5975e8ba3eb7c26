/**
 * The tree-walking evaluator (src/interpreter.ts, the expression methods).
 * A thrown `RuntimeError` becomes the `Err` side of a `Result`; evaluation
 * stops at the first one, as the exception would.
 */
module Interpreter {
  import opened Wrappers
  import opened Tokens
  import opened Ast
  import opened Numbers

  /** The operator token a runtime error is reported at, and the message. */
  datatype RuntimeError<N> = RuntimeError(token: Token<N>, message: string)

  const OperandMustBeNumber := "Operand must be a number."
  const OperandsMustBeNumbers := "Operands must be numbers."
  const OperandsMustBeNumbersOrStrings := "Operands must be two numbers, or two strings."

  /** The only three messages evaluation reports. */
  predicate Reported<N>(err: RuntimeError<N>) {
    || err.message == OperandMustBeNumber
    || err.message == OperandsMustBeNumbers
    || err.message == OperandsMustBeNumbersOrStrings
  }

  // ---------------------------------------------------------------------
  // Helpers on values.
  // ---------------------------------------------------------------------

  /** `isTruthy`: nil is false, a boolean is itself, every other value is true. */
  predicate IsTruthy<N>(v: Value<N>) {
    match v
    case Nil => false
    case Bool(b) => b
    case _ => true
  }

  /** Exactly nil and `false` are falsy; in particular 0 and the empty string are truthy. */
  lemma Falsy<N>(v: Value<N>)
    ensures !IsTruthy(v) <==> v == Nil || v == Bool(false)
  {
  }

  /** JavaScript's `===` on the values this language has: same type, and equal within it (numbers by the instance's `===`). */
  predicate StrictEquals<N>(ops: NumOps<N>, a: Value<N>, b: Value<N>) {
    match (a, b)
    case (Nil, Nil) => true
    case (Bool(x), Bool(y)) => x == y
    case (Num(x), Num(y)) => ops.eq(x, y)
    case (Str(x), Str(y)) => x == y
    case _ => false
  }

  /** `isEqual`: two nils are equal, nil on the left equals nothing else, and otherwise `===` decides. */
  function IsEqual<N>(ops: NumOps<N>, left: Value<N>, right: Value<N>): (eq: bool)
    ensures eq ==> left.Nil? == right.Nil? && left.Bool? == right.Bool? && left.Num? == right.Num? && left.Str? == right.Str?
    ensures left.Nil? ==> (eq <==> right.Nil?)
  {
    if left.Nil? && right.Nil? then true
    else if left.Nil? then false
    else StrictEquals(ops, left, right)
  }

  /** The two nil tests in front of `===` change nothing: `isEqual` is strict equality. */
  lemma IsEqualIsStrict<N>(ops: NumOps<N>, left: Value<N>, right: Value<N>)
    ensures IsEqual(ops, left, right) == StrictEquals(ops, left, right)
  {
  }

  /** `String(v)`: the text a value becomes when `+` concatenates it; nil becomes "null". */
  function JsString<N>(ops: NumOps<N>, v: Value<N>): string {
    match v
    case Nil => "null"
    case Bool(b) => if b then "true" else "false"
    case Num(n) => ops.show(n)
    case Str(s) => s
  }

  /** `stringify`: nil becomes the text "nil" and every other value is handed on unchanged. */
  function Stringify<N>(v: Value<N>): (r: Value<N>)
    ensures r != Nil
    ensures v != Nil ==> r == v
    ensures v == Nil ==> r == Str("nil")
  {
    if v.Nil? then Str("nil") else v
  }

  /** `checkNumberOperand`: the operand's number, or the error at the operator. */
  function CheckNumberOperand<N>(operator: Token<N>, operand: Value<N>): (r: Result<N, RuntimeError<N>>)
    ensures r.Ok? <==> operand.Num?
    ensures r.Ok? ==> operand == Num(r.value)
    ensures r.Err? ==> r.error == RuntimeError(operator, OperandMustBeNumber)
  {
    if operand.Num? then Ok(operand.n) else Err(RuntimeError(operator, OperandMustBeNumber))
  }

  /** `checkNumberOperands`: both operands' numbers, or the error at the operator. */
  function CheckNumberOperands<N>(operator: Token<N>, left: Value<N>, right: Value<N>): (r: Result<(N, N), RuntimeError<N>>)
    ensures r.Ok? <==> left.Num? && right.Num?
    ensures r.Ok? ==> left == Num(r.value.0) && right == Num(r.value.1)
    ensures r.Err? ==> r.error == RuntimeError(operator, OperandsMustBeNumbers)
  {
    if left.Num? && right.Num? then Ok((left.n, right.n)) else Err(RuntimeError(operator, OperandsMustBeNumbers))
  }

  // ---------------------------------------------------------------------
  // Operators.
  // ---------------------------------------------------------------------

  /** `visitUnary` once the operand is evaluated: `-` negates a number, `!` negates truthiness, any other kind gives nil. */
  function EvalUnary<N>(ops: NumOps<N>, operator: Token<N>, right: Value<N>): (r: Result<Value<N>, RuntimeError<N>>)
    ensures r.Err? <==> operator.kind == Minus && !right.Num?
    ensures r.Err? ==> r.error == RuntimeError(operator, OperandMustBeNumber)
    ensures operator.kind == Bang ==> r == Ok(Bool(!IsTruthy(right)))
    ensures operator.kind == Minus && right.Num? ==> r == Ok(Num(ops.neg(right.n)))
  {
    if operator.kind == Minus then
      var n :- CheckNumberOperand(operator, right);
      Ok(Num(ops.neg(n)))
    else if operator.kind == Bang then
      Ok(Bool(!IsTruthy(right)))
    else
      Ok(Nil)
  }

  /** The operators that demand two numbers. */
  predicate NumericOperator(kind: TokenType) {
    kind in {Greater, GreaterEqual, Less, LessEqual, Minus, Slash, Star}
  }

  /** `+` on two operands: numbers add; otherwise a string on either side concatenates both operands' texts. */
  function EvalPlus<N>(ops: NumOps<N>, operator: Token<N>, left: Value<N>, right: Value<N>): (r: Result<Value<N>, RuntimeError<N>>)
    ensures r.Ok? <==> (left.Num? && right.Num?) || left.Str? || right.Str?
    ensures r.Err? ==> r.error == RuntimeError(operator, OperandsMustBeNumbersOrStrings)
    ensures left.Num? && right.Num? ==> r == Ok(Num(ops.add(left.n, right.n)))
    ensures r.Ok? && !(left.Num? && right.Num?) ==> r.value == Str(JsString(ops, left) + JsString(ops, right))
  {
    if left.Num? && right.Num? then Ok(Num(ops.add(left.n, right.n)))
    else if left.Str? || right.Str? then Ok(Str(JsString(ops, left) + JsString(ops, right)))
    else Err(RuntimeError(operator, OperandsMustBeNumbersOrStrings))
  }

  /** `visitBinary` once both operands are evaluated: dispatch on the operator's kind; a kind it has no case for gives nil. */
  function EvalBinary<N>(ops: NumOps<N>, operator: Token<N>, left: Value<N>, right: Value<N>): (r: Result<Value<N>, RuntimeError<N>>)
    ensures NumericOperator(operator.kind) ==> (r.Err? <==> !(left.Num? && right.Num?))
    ensures NumericOperator(operator.kind) && r.Err? ==> r.error == RuntimeError(operator, OperandsMustBeNumbers)
    ensures operator.kind == Plus ==> r == EvalPlus(ops, operator, left, right)
    ensures operator.kind == EqualEqual ==> r == Ok(Bool(IsEqual(ops, left, right)))
    ensures operator.kind == BangEqual ==> r == Ok(Bool(!IsEqual(ops, left, right)))
    ensures left.Num? && right.Num? ==>
      && (operator.kind == Greater ==> r == Ok(Bool(ops.greater(left.n, right.n))))
      && (operator.kind == GreaterEqual ==> r == Ok(Bool(ops.greaterEq(left.n, right.n))))
      && (operator.kind == Less ==> r == Ok(Bool(ops.less(left.n, right.n))))
      && (operator.kind == LessEqual ==> r == Ok(Bool(ops.lessEq(left.n, right.n))))
      && (operator.kind == Minus ==> r == Ok(Num(ops.sub(left.n, right.n))))
      && (operator.kind == Slash ==> r == Ok(Num(ops.div(left.n, right.n))))
      && (operator.kind == Star ==> r == Ok(Num(ops.mul(left.n, right.n))))
    ensures !NumericOperator(operator.kind) && operator.kind !in {Plus, EqualEqual, BangEqual} ==> r == Ok(Nil)
  {
    var kind := operator.kind;
    if kind == BangEqual then Ok(Bool(!IsEqual(ops, left, right)))
    else if kind == EqualEqual then Ok(Bool(IsEqual(ops, left, right)))
    else if kind == Greater then
      var (a, b) :- CheckNumberOperands(operator, left, right);
      Ok(Bool(ops.greater(a, b)))
    else if kind == GreaterEqual then
      var (a, b) :- CheckNumberOperands(operator, left, right);
      Ok(Bool(ops.greaterEq(a, b)))
    else if kind == Less then
      var (a, b) :- CheckNumberOperands(operator, left, right);
      Ok(Bool(ops.less(a, b)))
    else if kind == LessEqual then
      var (a, b) :- CheckNumberOperands(operator, left, right);
      Ok(Bool(ops.lessEq(a, b)))
    else if kind == Minus then
      var (a, b) :- CheckNumberOperands(operator, left, right);
      Ok(Num(ops.sub(a, b)))
    else if kind == Slash then
      var (a, b) :- CheckNumberOperands(operator, left, right);
      Ok(Num(ops.div(a, b)))
    else if kind == Star then
      var (a, b) :- CheckNumberOperands(operator, left, right);
      Ok(Num(ops.mul(a, b)))
    else if kind == Plus then
      EvalPlus(ops, operator, left, right)
    else
      Ok(Nil)
  }

  // ---------------------------------------------------------------------
  // Evaluation.
  // ---------------------------------------------------------------------

  /**
   * `evaluate`: a literal is its value, a group its inner expression's value;
   * a unary node evaluates its operand, a binary node its left operand fully
   * and then its right, before the operator looks at them; a ternary node
   * evaluates its condition and then only the branch it selects.
   */
  function Evaluate<N>(ops: NumOps<N>, e: Expr<N>): (r: Result<Value<N>, RuntimeError<N>>)
    ensures r.Err? ==> Reported(r.error) && r.error.token in Operators(e)
  {
    match e
    case Literal(v) => Ok(v)
    case Grouping(x) => Evaluate(ops, x)
    case Unary(op, right) =>
      var v :- Evaluate(ops, right);
      EvalUnary(ops, op, v)
    case Binary(left, op, right) =>
      var a :- Evaluate(ops, left);
      var b :- Evaluate(ops, right);
      EvalBinary(ops, op, a, b)
    case Ternary(cond, left, right) =>
      var c :- Evaluate(ops, cond);
      if IsTruthy(c) then Evaluate(ops, left) else Evaluate(ops, right)
  }

  /**
   * `+` with a string on the left concatenates the text `String` gives the
   * right operand: a string itself, nil as "null", a boolean as "true" or
   * "false", a number as the instance renders it.
   */
  lemma StringsConcatenate<N>(ops: NumOps<N>, op: Token<N>, a: string, b: string, flag: bool, n: N)
    requires op.kind == Plus
    ensures EvalBinary(ops, op, Str(a), Str(b)) == Ok(Str(a + b))
    ensures EvalBinary(ops, op, Str(a), Nil) == Ok(Str(a + "null"))
    ensures EvalBinary(ops, op, Str(a), Bool(flag)) == Ok(Str(a + if flag then "true" else "false"))
    ensures EvalBinary(ops, op, Str(a), Num(n)) == Ok(Str(a + ops.show(n)))
    ensures EvalBinary(ops, op, Num(n), Str(b)) == Ok(Str(ops.show(n) + b))
  {
  }

  /** A literal evaluates to the value it holds, and a group to its inner expression's value. */
  lemma LeafValues<N>(ops: NumOps<N>, v: Value<N>, x: Expr<N>)
    ensures Evaluate(ops, Literal(v)) == Ok(v)
    ensures Evaluate(ops, Grouping(x)) == Evaluate(ops, x)
  {
  }

  /**
   * A unary node applies its operator to its operand's value, and a binary
   * node applies its operator to the left operand's value and the right
   * operand's value, in that order; an operand's error is the node's error.
   */
  lemma NodeValues<N>(ops: NumOps<N>, op: Token<N>, left: Expr<N>, right: Expr<N>)
    ensures Evaluate(ops, right).Ok? ==>
              Evaluate(ops, Unary(op, right)) == EvalUnary(ops, op, Evaluate(ops, right).value)
    ensures Evaluate(ops, right).Err? ==>
              Evaluate(ops, Unary(op, right)) == Err(Evaluate(ops, right).error)
    ensures Evaluate(ops, left).Ok? && Evaluate(ops, right).Ok? ==>
              Evaluate(ops, Binary(left, op, right)) == EvalBinary(ops, op, Evaluate(ops, left).value, Evaluate(ops, right).value)
  {
  }

  /** The tree with every group replaced by its inner expression. */
  function Ungroup<N>(e: Expr<N>): Expr<N> {
    match e
    case Binary(l, op, r) => Binary(Ungroup(l), op, Ungroup(r))
    case Unary(op, r) => Unary(op, Ungroup(r))
    case Literal(v) => Literal(v)
    case Grouping(x) => Ungroup(x)
    case Ternary(c, l, r) => Ternary(Ungroup(c), Ungroup(l), Ungroup(r))
  }

  /** Grouping is transparent: removing every group from a tree changes neither its value nor its error. */
  lemma {:induction false} GroupingTransparent<N>(ops: NumOps<N>, e: Expr<N>)
    ensures Evaluate(ops, Ungroup(e)) == Evaluate(ops, e)
  {
    match e
    case Binary(l, _, r) => GroupingTransparent(ops, l); GroupingTransparent(ops, r);
    case Unary(_, r) => GroupingTransparent(ops, r);
    case Literal(_) =>
    case Grouping(x) => GroupingTransparent(ops, x);
    case Ternary(c, l, r) => GroupingTransparent(ops, c); GroupingTransparent(ops, l); GroupingTransparent(ops, r);
  }

  /** An error in the left operand is the one reported: the right operand is never looked at. */
  lemma LeftErrorWins<N>(ops: NumOps<N>, left: Expr<N>, op: Token<N>, right1: Expr<N>, right2: Expr<N>)
    requires Evaluate(ops, left).Err?
    ensures Evaluate(ops, Binary(left, op, right1)) == Evaluate(ops, Binary(left, op, right2)) == Err(Evaluate(ops, left).error)
  {
  }

  /** The operator of a binary node sees its operands only after both evaluated without error. */
  lemma OperandsFirst<N>(ops: NumOps<N>, left: Expr<N>, op: Token<N>, right: Expr<N>)
    requires Evaluate(ops, left).Ok? && Evaluate(ops, right).Err?
    ensures Evaluate(ops, Binary(left, op, right)) == Err(Evaluate(ops, right).error)
  {
  }

  /** The branch a ternary does not take is never evaluated: replacing it changes nothing. */
  lemma UntakenBranch<N>(ops: NumOps<N>, cond: Expr<N>, left: Expr<N>, right: Expr<N>, other: Expr<N>)
    requires Evaluate(ops, cond).Ok?
    ensures IsTruthy(Evaluate(ops, cond).value) ==>
              Evaluate(ops, Ternary(cond, left, right)) == Evaluate(ops, Ternary(cond, left, other)) == Evaluate(ops, left)
    ensures !IsTruthy(Evaluate(ops, cond).value) ==>
              Evaluate(ops, Ternary(cond, left, right)) == Evaluate(ops, Ternary(cond, other, right)) == Evaluate(ops, right)
  {
  }

  /** `==` and `!=` never fail and always answer opposite ways. */
  lemma EqualityOperators<N>(ops: NumOps<N>, eq: Token<N>, ne: Token<N>, left: Value<N>, right: Value<N>)
    requires eq.kind == EqualEqual && ne.kind == BangEqual
    ensures EvalBinary(ops, eq, left, right).Ok? && EvalBinary(ops, ne, left, right).Ok?
    ensures EvalBinary(ops, eq, left, right).value.Bool? && EvalBinary(ops, ne, left, right).value.Bool?
    ensures EvalBinary(ops, ne, left, right).value.b == !EvalBinary(ops, eq, left, right).value.b
    ensures EvalBinary(ops, eq, left, right).value.b ==> TypeOfValue(left) == TypeOfValue(right)
  {
  }

  // ---------------------------------------------------------------------
  // A static type discipline, as an independent account of when evaluation
  // succeeds and what kind of value it yields.
  // ---------------------------------------------------------------------

  datatype Type = NilType | BoolType | NumType | StrType

  function TypeOfValue<N>(v: Value<N>): Type {
    match v
    case Nil => NilType
    case Bool(_) => BoolType
    case Num(_) => NumType
    case Str(_) => StrType
  }

  /** The type of a unary node's value from its operand's type, or None when evaluation fails. */
  function UnaryType(kind: TokenType, operand: Type): Option<Type> {
    if kind == Minus then (if operand == NumType then Some(NumType) else None)
    else if kind == Bang then Some(BoolType)
    else Some(NilType)
  }

  /** The type of a binary node's value from its operands' types, or None when evaluation fails. */
  function BinaryType(kind: TokenType, left: Type, right: Type): Option<Type> {
    if kind == BangEqual || kind == EqualEqual then Some(BoolType)
    else if kind in {Greater, GreaterEqual, Less, LessEqual} then
      (if left == NumType && right == NumType then Some(BoolType) else None)
    else if kind in {Minus, Slash, Star} then
      (if left == NumType && right == NumType then Some(NumType) else None)
    else if kind == Plus then
      (if left == NumType && right == NumType then Some(NumType)
       else if left == StrType || right == StrType then Some(StrType)
       else None)
    else Some(NilType)
  }

  /** The static type of a tree: None when some operator meets operands it rejects, or a ternary's branches disagree. */
  function TypeOf<N>(e: Expr<N>): Option<Type> {
    match e
    case Literal(v) => Some(TypeOfValue(v))
    case Grouping(x) => TypeOf(x)
    case Unary(op, right) =>
      if TypeOf(right).None? then None else UnaryType(op.kind, TypeOf(right).value)
    case Binary(left, op, right) =>
      if TypeOf(left).None? || TypeOf(right).None? then None
      else BinaryType(op.kind, TypeOf(left).value, TypeOf(right).value)
    case Ternary(cond, left, right) =>
      if TypeOf(cond).Some? && TypeOf(left).Some? && TypeOf(left) == TypeOf(right) then TypeOf(left) else None
  }

  /** A unary operator succeeds exactly when its type rule gives a type, and then yields a value of that type. */
  lemma UnaryTyped<N>(ops: NumOps<N>, op: Token<N>, v: Value<N>)
    ensures EvalUnary(ops, op, v).Ok? <==> UnaryType(op.kind, TypeOfValue(v)).Some?
    ensures EvalUnary(ops, op, v).Ok? ==> UnaryType(op.kind, TypeOfValue(v)) == Some(TypeOfValue(EvalUnary(ops, op, v).value))
  {
  }

  /** A binary operator succeeds exactly when its type rule gives a type, and then yields a value of that type. */
  lemma BinaryTyped<N>(ops: NumOps<N>, op: Token<N>, a: Value<N>, b: Value<N>)
    ensures EvalBinary(ops, op, a, b).Ok? <==> BinaryType(op.kind, TypeOfValue(a), TypeOfValue(b)).Some?
    ensures EvalBinary(ops, op, a, b).Ok? ==>
              BinaryType(op.kind, TypeOfValue(a), TypeOfValue(b)) == Some(TypeOfValue(EvalBinary(ops, op, a, b).value))
  {
  }

  /** A well-typed tree evaluates without error to a value of its type. */
  lemma {:induction false} TypeSound<N>(ops: NumOps<N>, e: Expr<N>)
    requires TypeOf(e).Some?
    ensures Evaluate(ops, e).Ok? && TypeOfValue(Evaluate(ops, e).value) == TypeOf(e).value
  {
    match e
    case Literal(_) =>
    case Grouping(x) => TypeSound(ops, x);
    case Unary(op, right) =>
      TypeSound(ops, right);
      UnaryTyped(ops, op, Evaluate(ops, right).value);
    case Binary(left, op, right) =>
      TypeSound(ops, left);
      TypeSound(ops, right);
      BinaryTyped(ops, op, Evaluate(ops, left).value, Evaluate(ops, right).value);
    case Ternary(cond, left, right) =>
      TypeSound(ops, cond);
      TypeSound(ops, left);
      TypeSound(ops, right);
  }

  /** Without ternaries the type discipline is exact: a tree evaluates without error exactly when it is well typed. */
  lemma {:induction false} TypeComplete<N>(ops: NumOps<N>, e: Expr<N>)
    requires TernaryFree(e)
    ensures Evaluate(ops, e).Ok? <==> TypeOf(e).Some?
    ensures Evaluate(ops, e).Ok? ==> TypeOf(e) == Some(TypeOfValue(Evaluate(ops, e).value))
  {
    match e
    case Literal(_) =>
    case Grouping(x) => TypeComplete(ops, x);
    case Unary(op, right) =>
      TypeComplete(ops, right);
      if Evaluate(ops, right).Ok? {
        UnaryTyped(ops, op, Evaluate(ops, right).value);
      }
    case Binary(left, op, right) =>
      TypeComplete(ops, left);
      TypeComplete(ops, right);
      if Evaluate(ops, left).Ok? && Evaluate(ops, right).Ok? {
        BinaryTyped(ops, op, Evaluate(ops, left).value, Evaluate(ops, right).value);
      }
  }
}

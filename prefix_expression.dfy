/** SkSL prefix expressions: the type checks of PrefixExpression::Convert and the
    simplifications PrefixExpression::Make applies when it builds `+e`, `-e`, `!e`, `++e`,
    `--e` and `~e`.

    The simplifications are proved sound against Eval, a meaning of expressions in which
    negation and logical not act on literal values and component-wise on constructors, and
    stay symbolic on everything else. */
module PrefixExpression {
  import opened Wrappers

  /** The prefix operators; every other operator kind is outside this model. */
  datatype Operator = Plus | Minus | PlusPlus | MinusMinus | LogicalNot | BitwiseNot

  /** The values an integer type can hold, for the out-of-range literal check. */
  datatype IntRange = IntRange(lo: int, hi: int)

  /** The questions the rules ask of a type. The component questions are asked of
      componentType(), which is the type itself for a scalar; literalRange is the range the
      component type checks literals against (none for floating-point and boolean types). */
  datatype Type = Type(displayName: string, isArray: bool, isNumber: bool, isBoolean: bool,
                       componentIsNumber: bool, componentIsInteger: bool, isLiteral: bool,
                       literalRange: Option<IntRange>)

  /** The expression kinds the rules distinguish, each with its position. A literal holds
      its value as an integer (nonzero is true for a boolean literal); every kind the rules
      do not inspect is Other. */
  datatype Expr =
    | Literal(pos: int, value: int, exprType: Type)
    | VariableReference(pos: int, name: string, exprType: Type, assignable: bool)
    | Prefix(pos: int, op: Operator, operand: Expr)
    | ConstructorArray(pos: int, exprType: Type, arguments: seq<Expr>)
    | ConstructorCompound(pos: int, exprType: Type, arguments: seq<Expr>)
    | ConstructorDiagonalMatrix(pos: int, exprType: Type, argument: Expr)
    | ConstructorSplat(pos: int, exprType: Type, argument: Expr)
    | Other(pos: int, exprType: Type, assignable: bool)

  /** A prefix expression has the type of its operand. */
  function TypeOf(e: Expr): Type {
    if e.Prefix? then TypeOf(e.operand) else e.exprType
  }

  /** Literals, and constructors whose arguments are all compile-time constants. */
  predicate IsCompileTimeConstant(e: Expr) {
    match e
    case Literal(_, _, _) => true
    case ConstructorArray(_, _, args) => forall i | 0 <= i < |args| :: IsCompileTimeConstant(args[i])
    case ConstructorCompound(_, _, args) => forall i | 0 <= i < |args| :: IsCompileTimeConstant(args[i])
    case ConstructorDiagonalMatrix(_, _, arg) => IsCompileTimeConstant(arg)
    case ConstructorSplat(_, _, arg) => IsCompileTimeConstant(arg)
    case _ => false
  }

  /** Analysis::IsAssignable: a variable that is not read-only, or another assignable
      expression (a field, an index or a swizzle of one). */
  predicate IsAssignable(e: Expr) {
    (e.VariableReference? || e.Other?) && e.assignable
  }

  /** What the rules read from the compilation context: strict ES2 mode, the constant value
      of every `const` variable that has one, and the coercion of an expression of literal
      type to its scalar type (none when the coercion reports an error). */
  datatype Context = Context(strictES2Mode: bool, constants: map<string, Expr>,
                             coerceToScalar: Expr -> Option<Expr>)

  /** A constant's value is a compile-time constant, so it mentions no variable. */
  predicate ConstantsOk(ctx: Context) {
    forall name | name in ctx.constants :: IsCompileTimeConstant(ctx.constants[name])
  }

  /** The coercion produces an integer scalar type that is no longer a literal type. */
  ghost predicate CoercionOk(ctx: Context) {
    forall e | ctx.coerceToScalar(e).Some? ::
      var t := TypeOf(ctx.coerceToScalar(e).value);
      !t.isArray && t.componentIsInteger && !t.isLiteral
  }

  ghost predicate ContextOk(ctx: Context) {
    ConstantsOk(ctx) && CoercionOk(ctx)
  }

  /** A reference to a constant has the type of the constant's value. */
  predicate ExprOk(ctx: Context, e: Expr) {
    e.VariableReference? && e.name in ctx.constants ==> TypeOf(ctx.constants[e.name]) == e.exprType
  }

  /** ConstantFolder::GetConstantValueForVariable: the value of a reference to a constant,
      otherwise the expression itself. */
  function GetConstantValue(ctx: Context, e: Expr): (r: Expr)
    requires ConstantsOk(ctx)
    ensures r == e || IsCompileTimeConstant(r)
  {
    if e.VariableReference? && e.name in ctx.constants then ctx.constants[e.name] else e
  }

  /** A compile-time constant is its own constant value, and so is its argument. */
  lemma ConstantIsOwnValue(ctx: Context, e: Expr)
    requires ConstantsOk(ctx) && IsCompileTimeConstant(e)
    ensures GetConstantValue(ctx, e) == e
    ensures e.ConstructorSplat? || e.ConstructorDiagonalMatrix? ==>
              GetConstantValue(ctx, e.argument) == e.argument
  {
  }

  /** Type::checkForOutOfRangeLiteral */
  predicate OutOfRange(t: Type, v: int) {
    t.literalRange.Some? && !(t.literalRange.value.lo <= v <= t.literalRange.value.hi)
  }

  // ---------------------------------------------------------------------------------------
  // Negation and logical not

  /** simplify_negation: the simplified form of `-e`, if there is one. */
  function SimplifyNegation(ctx: Context, e: Expr): Option<Expr>
    requires ConstantsOk(ctx)
    decreases GetConstantValue(ctx, e), 0
  {
    var value := GetConstantValue(ctx, e);
    match value
    case Literal(_, v, t) =>
      if OutOfRange(t, -v) then None else Some(Literal(e.pos, -v, t))
    case Prefix(_, op, operand) =>
      if op == Minus then Some(operand) else None
    case ConstructorArray(_, t, args) =>
      if IsCompileTimeConstant(value) then Some(ConstructorArray(e.pos, t, NegateOperands(ctx, args)))
      else None
    case ConstructorDiagonalMatrix(_, t, arg) =>
      if IsCompileTimeConstant(value) then
        ConstantIsOwnValue(ctx, value);
        var simplified := SimplifyNegation(ctx, arg);
        if simplified.Some? then Some(ConstructorDiagonalMatrix(e.pos, t, simplified.value)) else None
      else None
    case ConstructorSplat(_, t, arg) =>
      if IsCompileTimeConstant(value) then
        ConstantIsOwnValue(ctx, value);
        var simplified := SimplifyNegation(ctx, arg);
        if simplified.Some? then Some(ConstructorSplat(e.pos, t, simplified.value)) else None
      else None
    case ConstructorCompound(_, t, args) =>
      if IsCompileTimeConstant(value) then Some(ConstructorCompound(e.pos, t, NegateOperands(ctx, args)))
      else None
    case _ => None
  }

  /** negate_operands: each argument of a constant constructor negated, in order. */
  function NegateOperands(ctx: Context, args: seq<Expr>): (r: seq<Expr>)
    requires ConstantsOk(ctx) && forall i | 0 <= i < |args| :: IsCompileTimeConstant(args[i])
    ensures |r| == |args|
    ensures forall i | 0 <= i < |args| ::
              (ConstantIsOwnValue(ctx, args[i]); r[i] == NegateOperand(ctx, args[i]))
    decreases args
  {
    seq(|args|, i requires 0 <= i < |args| =>
      ConstantIsOwnValue(ctx, args[i]);
      NegateOperand(ctx, args[i]))
  }

  /** The errors simplify_negation reports on the way: one for each literal whose negation
      its type cannot hold, at that literal's own position, found through constant variables
      and inside constant constructors. */
  function NegationReports(ctx: Context, e: Expr): (errs: seq<PrefixError>)
    requires ConstantsOk(ctx)
    ensures forall i | 0 <= i < |errs| :: errs[i].OutOfRangeLiteral?
    decreases GetConstantValue(ctx, e), 0
  {
    var value := GetConstantValue(ctx, e);
    match value
    case Literal(pos, v, t) =>
      if OutOfRange(t, -v) then [OutOfRangeLiteral(-v, t.displayName, pos)] else []
    case ConstructorArray(_, _, args) =>
      if IsCompileTimeConstant(value) then OperandsReports(ctx, args) else []
    case ConstructorCompound(_, _, args) =>
      if IsCompileTimeConstant(value) then OperandsReports(ctx, args) else []
    case ConstructorDiagonalMatrix(_, _, arg) =>
      if IsCompileTimeConstant(value) then
        ConstantIsOwnValue(ctx, value);
        NegationReports(ctx, arg)
      else []
    case ConstructorSplat(_, _, arg) =>
      if IsCompileTimeConstant(value) then
        ConstantIsOwnValue(ctx, value);
        NegationReports(ctx, arg)
      else []
    case _ => []
  }

  /** The errors negate_operands reports, argument by argument. */
  function OperandsReports(ctx: Context, args: seq<Expr>): (errs: seq<PrefixError>)
    requires ConstantsOk(ctx) && forall i | 0 <= i < |args| :: IsCompileTimeConstant(args[i])
    ensures forall i | 0 <= i < |errs| :: errs[i].OutOfRangeLiteral?
    decreases args
  {
    if args == [] then []
    else
      ConstantIsOwnValue(ctx, args[0]);
      NegationReports(ctx, args[0]) + OperandsReports(ctx, args[1..])
  }

  /** negate_operand: the simplified negation, or `-e` when there is none. */
  function NegateOperand(ctx: Context, e: Expr): (r: Expr)
    requires ConstantsOk(ctx)
    ensures e.Prefix? && e.op == Minus ==> r == e.operand
    ensures e.Literal? ==>
              r == if OutOfRange(e.exprType, -e.value) then Prefix(e.pos, Minus, e)
                   else Literal(e.pos, -e.value, e.exprType)
    decreases GetConstantValue(ctx, e), 1
  {
    var simplified := SimplifyNegation(ctx, e);
    if simplified.Some? then simplified.value else Prefix(e.pos, Minus, e)
  }

  /** logical_not_operand: `!literal` folds, `!!e` is e, anything else is wrapped. */
  function LogicalNotOperand(ctx: Context, operand: Expr): (r: Expr)
    requires ConstantsOk(ctx) && TypeOf(operand).isBoolean
    requires GetConstantValue(ctx, operand).Literal? ==> TypeOf(GetConstantValue(ctx, operand)).isBoolean
    ensures var value := GetConstantValue(ctx, operand);
            && (value.Literal? ==> r == Literal(operand.pos, if value.value != 0 then 0 else 1, TypeOf(operand)))
            && (operand.Prefix? && operand.op == LogicalNot ==> r == operand.operand)
            && (!value.Literal? && !(operand.Prefix? && operand.op == LogicalNot) ==>
                  r == Prefix(operand.pos, LogicalNot, operand))
  {
    var value := GetConstantValue(ctx, operand);
    match value
    case Literal(_, v, _) =>
      Literal(operand.pos, if v != 0 then 0 else 1, TypeOf(operand))
    case Prefix(_, _, _) =>
      // A constant's value is never a prefix expression, so value is the operand itself.
      if operand.op == LogicalNot then operand.operand else Prefix(operand.pos, LogicalNot, operand)
    case _ => Prefix(operand.pos, LogicalNot, operand)
  }

  // ---------------------------------------------------------------------------------------
  // Make and Convert

  /** The SK_DEBUG checks Make makes of its operand. */
  predicate MakeChecks(ctx: Context, op: Operator, base: Expr)
    requires ConstantsOk(ctx)
  {
    var t := TypeOf(base);
    match op
    case Plus => !t.isArray && t.componentIsNumber
    case Minus => !t.isArray && t.componentIsNumber
    case LogicalNot =>
      t.isBoolean
      && (GetConstantValue(ctx, base).Literal? ==> TypeOf(GetConstantValue(ctx, base)).isBoolean)
    case PlusPlus => t.isNumber && IsAssignable(base)
    case MinusMinus => t.isNumber && IsAssignable(base)
    case BitwiseNot => !ctx.strictES2Mode && !t.isArray && t.componentIsInteger && !t.isLiteral
  }

  /** PrefixExpression::Make: `+e` is e, `-e` and `!e` are simplified, and `++`, `--` and
      `~` build a plain prefix node. */
  function Make(ctx: Context, op: Operator, base: Expr): (r: Expr)
    requires ConstantsOk(ctx) && MakeChecks(ctx, op, base)
    ensures op == Plus ==> r == base
    ensures op == Minus ==> Eval(ctx.constants, r) == NegVal(Eval(ctx.constants, base))
    ensures op == LogicalNot ==> Eval(ctx.constants, r) == NotVal(Eval(ctx.constants, base))
    ensures op in {PlusPlus, MinusMinus, BitwiseNot} ==> r == Prefix(base.pos, op, base)
  {
    match op
    case Plus => base
    case Minus =>
      NegateOperandSound(ctx, base);
      NegateOperand(ctx, base)
    case LogicalNot =>
      LogicalNotSound(ctx, base);
      LogicalNotOperand(ctx, base)
    case _ => Prefix(base.pos, op, base)
  }

  /** The Make overload that also sets the result's position: only the position changes. */
  function MakeAt(ctx: Context, pos: int, op: Operator, base: Expr): (r: Expr)
    requires ConstantsOk(ctx) && MakeChecks(ctx, op, base)
    ensures r.pos == pos && r.(pos := Make(ctx, op, base).pos) == Make(ctx, op, base)
  {
    Make(ctx, op, base).(pos := pos)
  }

  /** The errors Convert reports. */
  datatype PrefixError =
    | CannotOperate(op: Operator, typeName: string, at: int)
    | NotAllowed(op: Operator, at: int)
    | NotAssignable(at: int)
    | CoercionFailed(at: int)
    | OutOfRangeLiteral(value: int, typeName: string, at: int)

  /** A converted expression comes with the errors put on record while building it (a
      literal whose negation its type cannot hold); a rejected one with the error that
      stopped it. */
  datatype Converted = Converted(expr: Expr, reported: seq<PrefixError>) | Rejected(error: PrefixError)

  /** PrefixExpression::Convert: reports an error for an operand the operator cannot take,
      otherwise hands the operand (coerced, for `~` on a literal type) to Make. */
  function Convert(ctx: Context, op: Operator, base: Expr): (r: Converted)
    requires ContextOk(ctx) && ExprOk(ctx, base)
    ensures !(op == BitwiseNot && TypeOf(base).isLiteral && !ctx.strictES2Mode) ==>
              (r.Converted? <==> MakeChecks(ctx, op, base))
              && (r.Converted? ==> r.expr == Make(ctx, op, base))
    ensures op == BitwiseNot && ctx.strictES2Mode ==> r == Rejected(NotAllowed(op, base.pos))
    ensures op == BitwiseNot && TypeOf(base).isLiteral && !ctx.strictES2Mode ==>
              (r.Converted? <==> !TypeOf(base).isArray && TypeOf(base).componentIsInteger
                                 && ctx.coerceToScalar(base).Some?)
    ensures op == BitwiseNot && r.Converted? && TypeOf(base).isLiteral ==>
              ctx.coerceToScalar(base).Some?
              && r.expr == Prefix(ctx.coerceToScalar(base).value.pos, BitwiseNot, ctx.coerceToScalar(base).value)
    ensures r.Converted? ==> r.reported == if op == Minus then NegationReports(ctx, base) else []
  {
    var t := TypeOf(base);
    match op
    case Plus =>
      if t.isArray || !t.componentIsNumber then Rejected(CannotOperate(op, t.displayName, base.pos))
      else Converted(Make(ctx, op, base), [])
    case Minus =>
      if t.isArray || !t.componentIsNumber then Rejected(CannotOperate(op, t.displayName, base.pos))
      else Converted(Make(ctx, op, base), NegationReports(ctx, base))
    case PlusPlus =>
      if !t.isNumber then Rejected(CannotOperate(op, t.displayName, base.pos))
      else if !IsAssignable(base) then Rejected(NotAssignable(base.pos))
      else Converted(Make(ctx, op, base), [])
    case MinusMinus =>
      if !t.isNumber then Rejected(CannotOperate(op, t.displayName, base.pos))
      else if !IsAssignable(base) then Rejected(NotAssignable(base.pos))
      else Converted(Make(ctx, op, base), [])
    case LogicalNot =>
      if !t.isBoolean then Rejected(CannotOperate(op, t.displayName, base.pos))
      else Converted(Make(ctx, op, base), [])
    case BitwiseNot =>
      if ctx.strictES2Mode then Rejected(NotAllowed(op, base.pos))
      else if t.isArray || !t.componentIsInteger then Rejected(CannotOperate(op, t.displayName, base.pos))
      else if t.isLiteral then
        var coerced := ctx.coerceToScalar(base);
        if coerced.None? then Rejected(CoercionFailed(base.pos))
        else Converted(Make(ctx, op, coerced.value), [])
      else Converted(Make(ctx, op, base), [])
  }

  // ---------------------------------------------------------------------------------------
  // The meaning of an expression

  datatype AggKind = ArrayAgg | CompoundAgg | DiagonalAgg | SplatAgg

  /** A number, a truth value, a constructed aggregate of values, an expression whose value
      is not known, or the negation or logical not of a value that could not be folded. */
  datatype Val =
    | Num(n: int)
    | Truth(b: bool)
    | Agg(kind: AggKind, aggType: Type, items: seq<Val>)
    | Unknown(e: Expr)
    | Neg(v: Val)
    | Not(v: Val)

  /** Negation of a value: numbers negate, a nonzero truth value stays nonzero, aggregates
      negate component-wise, and a double negation cancels. */
  function NegVal(v: Val): Val {
    match v
    case Num(n) => Num(-n)
    case Truth(_) => v
    case Agg(k, t, items) => Agg(k, t, seq(|items|, i requires 0 <= i < |items| => NegVal(items[i])))
    case Neg(w) => w
    case _ => Neg(v)
  }

  /** Logical not of a value: truth values invert and a double not cancels. */
  function NotVal(v: Val): Val {
    match v
    case Truth(b) => Truth(!b)
    case Not(w) => w
    case _ => Not(v)
  }

  /** The meaning of e, where a reference to a constant means the constant's value. */
  function Eval(constants: map<string, Expr>, e: Expr): Val
    decreases |constants|, e
  {
    match e
    case Literal(_, v, t) => if t.isBoolean then Truth(v != 0) else Num(v)
    case VariableReference(_, name, _, _) =>
      if name in constants then Eval(map[], constants[name]) else Unknown(e)
    case Prefix(_, op, x) =>
      (match op
       case Plus => Eval(constants, x)
       case Minus => NegVal(Eval(constants, x))
       case LogicalNot => NotVal(Eval(constants, x))
       case _ => Unknown(e))
    case ConstructorArray(_, t, args) =>
      Agg(ArrayAgg, t, seq(|args|, i requires 0 <= i < |args| => Eval(constants, args[i])))
    case ConstructorCompound(_, t, args) =>
      Agg(CompoundAgg, t, seq(|args|, i requires 0 <= i < |args| => Eval(constants, args[i])))
    case ConstructorDiagonalMatrix(_, t, arg) => Agg(DiagonalAgg, t, [Eval(constants, arg)])
    case ConstructorSplat(_, t, arg) => Agg(SplatAgg, t, [Eval(constants, arg)])
    case Other(_, _, _) => Unknown(e)
  }

  /** The values Eval produces: no negation of something NegVal folds, and no logical not of
      something NotVal folds. */
  predicate Normal(v: Val) {
    match v
    case Agg(_, _, items) => forall i | 0 <= i < |items| :: Normal(items[i])
    case Neg(w) => Normal(w) && (w.Unknown? || w.Not?)
    case Not(w) => Normal(w) && !(w.Truth? || w.Not?)
    case _ => true
  }

  lemma {:induction false} NegValInvolutive(v: Val)
    requires Normal(v)
    ensures Normal(NegVal(v)) && NegVal(NegVal(v)) == v
  {
    match v
    case Agg(k, t, items) =>
      forall i | 0 <= i < |items| ensures Normal(NegVal(items[i])) && NegVal(NegVal(items[i])) == items[i] {
        NegValInvolutive(items[i]);
      }
      assert NegVal(NegVal(v)).items == items;
    case _ =>
  }

  lemma NotValInvolutive(v: Val)
    requires Normal(v)
    ensures Normal(NotVal(v)) && NotVal(NotVal(v)) == v
  {
  }

  lemma {:induction false} EvalNormal(constants: map<string, Expr>, e: Expr)
    ensures Normal(Eval(constants, e))
    decreases |constants|, e
  {
    match e
    case VariableReference(_, name, _, _) =>
      if name in constants {
        EvalNormal(map[], constants[name]);
      }
    case Prefix(_, op, x) =>
      EvalNormal(constants, x);
      if op == Minus {
        NegValInvolutive(Eval(constants, x));
      } else if op == LogicalNot {
        NotValInvolutive(Eval(constants, x));
      }
    case ConstructorArray(_, _, args) =>
      forall i | 0 <= i < |args| ensures Normal(Eval(constants, args[i])) {
        EvalNormal(constants, args[i]);
      }
    case ConstructorCompound(_, _, args) =>
      forall i | 0 <= i < |args| ensures Normal(Eval(constants, args[i])) {
        EvalNormal(constants, args[i]);
      }
    case ConstructorDiagonalMatrix(_, _, arg) => EvalNormal(constants, arg);
    case ConstructorSplat(_, _, arg) => EvalNormal(constants, arg);
    case _ =>
  }

  /** A compile-time constant mentions no variable, so its meaning needs no constants. */
  lemma {:induction false} EvalConstant(constants: map<string, Expr>, e: Expr)
    requires IsCompileTimeConstant(e)
    ensures Eval(constants, e) == Eval(map[], e)
  {
    match e
    case ConstructorArray(_, _, args) =>
      forall i | 0 <= i < |args| ensures Eval(constants, args[i]) == Eval(map[], args[i]) {
        EvalConstant(constants, args[i]);
      }
    case ConstructorCompound(_, _, args) =>
      forall i | 0 <= i < |args| ensures Eval(constants, args[i]) == Eval(map[], args[i]) {
        EvalConstant(constants, args[i]);
      }
    case ConstructorDiagonalMatrix(_, _, arg) => EvalConstant(constants, arg);
    case ConstructorSplat(_, _, arg) => EvalConstant(constants, arg);
    case _ =>
  }

  /** The meaning of e is the meaning of its constant value. */
  lemma ValueMeaning(ctx: Context, e: Expr)
    requires ConstantsOk(ctx)
    ensures Eval(ctx.constants, e) == Eval(ctx.constants, GetConstantValue(ctx, e))
  {
    if e.VariableReference? && e.name in ctx.constants {
      EvalConstant(ctx.constants, ctx.constants[e.name]);
    }
  }

  // ---------------------------------------------------------------------------------------
  // Soundness of the simplifications

  /** A simplified negation means the negation of the original expression. */
  lemma {:induction false} SimplifyNegationSound(ctx: Context, e: Expr)
    requires ConstantsOk(ctx)
    ensures var r := SimplifyNegation(ctx, e);
            r.Some? ==> Eval(ctx.constants, r.value) == NegVal(Eval(ctx.constants, e))
    decreases GetConstantValue(ctx, e), 0
  {
    var c := ctx.constants;
    var value := GetConstantValue(ctx, e);
    ValueMeaning(ctx, e);
    match value
    case Prefix(_, op, operand) =>
      if op == Minus {
        EvalNormal(c, operand);
        NegValInvolutive(Eval(c, operand));
      }
    case ConstructorArray(_, t, args) =>
      if IsCompileTimeConstant(value) {
        NegateOperandsSound(ctx, args);
      }
    case ConstructorCompound(_, t, args) =>
      if IsCompileTimeConstant(value) {
        NegateOperandsSound(ctx, args);
      }
    case ConstructorDiagonalMatrix(_, t, arg) =>
      if IsCompileTimeConstant(value) {
        ConstantIsOwnValue(ctx, value);
        SimplifyNegationSound(ctx, arg);
      }
    case ConstructorSplat(_, t, arg) =>
      if IsCompileTimeConstant(value) {
        ConstantIsOwnValue(ctx, value);
        SimplifyNegationSound(ctx, arg);
      }
    case _ =>
  }

  lemma {:induction false} NegateOperandsSound(ctx: Context, args: seq<Expr>)
    requires ConstantsOk(ctx) && forall i | 0 <= i < |args| :: IsCompileTimeConstant(args[i])
    ensures forall i | 0 <= i < |args| ::
              Eval(ctx.constants, NegateOperands(ctx, args)[i]) == NegVal(Eval(ctx.constants, args[i]))
    decreases args
  {
    forall i | 0 <= i < |args|
      ensures Eval(ctx.constants, NegateOperands(ctx, args)[i]) == NegVal(Eval(ctx.constants, args[i]))
    {
      NegateOperandSound(ctx, args[i]);
    }
  }

  /** negate_operand always yields an expression meaning the negation of its operand. */
  lemma {:induction false} NegateOperandSound(ctx: Context, e: Expr)
    requires ConstantsOk(ctx)
    ensures Eval(ctx.constants, NegateOperand(ctx, e)) == NegVal(Eval(ctx.constants, e))
    decreases GetConstantValue(ctx, e), 1
  {
    SimplifyNegationSound(ctx, e);
  }

  /** logical_not_operand always yields an expression meaning the logical not of its
      operand. */
  lemma LogicalNotSound(ctx: Context, operand: Expr)
    requires ConstantsOk(ctx) && TypeOf(operand).isBoolean
    requires GetConstantValue(ctx, operand).Literal? ==> TypeOf(GetConstantValue(ctx, operand)).isBoolean
    ensures Eval(ctx.constants, LogicalNotOperand(ctx, operand)) == NotVal(Eval(ctx.constants, operand))
  {
    ValueMeaning(ctx, operand);
    if operand.Prefix? && operand.op == LogicalNot {
      EvalNormal(ctx.constants, operand.operand);
      NotValInvolutive(Eval(ctx.constants, operand.operand));
    }
  }

  // ---------------------------------------------------------------------------------------
  // The individual rules

  /** `-vector(x)` becomes `vector(-x)` exactly when the splat is constant and x itself
      simplifies. */
  lemma NegateSplat(ctx: Context, pos: int, t: Type, arg: Expr)
    requires ConstantsOk(ctx)
    ensures var r := SimplifyNegation(ctx, ConstructorSplat(pos, t, arg));
            && (r.Some? <==> IsCompileTimeConstant(arg) && SimplifyNegation(ctx, arg).Some?)
            && (r.Some? ==> r.value == ConstructorSplat(pos, t, SimplifyNegation(ctx, arg).value))
  {
  }

  /** `-matrix(x)` becomes `matrix(-x)` exactly when the matrix is constant and x itself
      simplifies. */
  lemma NegateDiagonalMatrix(ctx: Context, pos: int, t: Type, arg: Expr)
    requires ConstantsOk(ctx)
    ensures var r := SimplifyNegation(ctx, ConstructorDiagonalMatrix(pos, t, arg));
            && (r.Some? <==> IsCompileTimeConstant(arg) && SimplifyNegation(ctx, arg).Some?)
            && (r.Some? ==> r.value == ConstructorDiagonalMatrix(pos, t, SimplifyNegation(ctx, arg).value))
  {
  }
  // ---------------------------------------------------------------------------------------
  // Out-of-range literals

  /** A negation of a constant that cannot be simplified has reported why, and a literal's
      negation is refused exactly when it is reported; an expression without a constant value
      reports nothing. */
  lemma {:induction false} RefusedNegationReported(ctx: Context, e: Expr)
    requires ConstantsOk(ctx)
    ensures var value := GetConstantValue(ctx, e);
            && (IsCompileTimeConstant(value) && SimplifyNegation(ctx, e).None? ==> NegationReports(ctx, e) != [])
            && (value.Literal? ==> (SimplifyNegation(ctx, e).None? <==> NegationReports(ctx, e) != []))
            && (!IsCompileTimeConstant(value) ==> NegationReports(ctx, e) == [])
    decreases GetConstantValue(ctx, e)
  {
    var value := GetConstantValue(ctx, e);
    match value
    case ConstructorDiagonalMatrix(_, _, arg) =>
      if IsCompileTimeConstant(value) {
        ConstantIsOwnValue(ctx, value);
        RefusedNegationReported(ctx, arg);
      }
    case ConstructorSplat(_, _, arg) =>
      if IsCompileTimeConstant(value) {
        ConstantIsOwnValue(ctx, value);
        RefusedNegationReported(ctx, arg);
      }
    case _ =>
  }

  /** `-1u`: the unsigned literal is kept under a negation, and the error names the value -1
      and the literal's own position. */
  lemma NegatedUnsignedOneReported(ctx: Context, pos: int)
    requires ContextOk(ctx)
    ensures var uint := Type("uint", false, true, false, true, true, false, Some(IntRange(0, 0xFFFF_FFFF)));
            var one := Literal(pos, 1, uint);
            Convert(ctx, Minus, one) == Converted(Prefix(pos, Minus, one), [OutOfRangeLiteral(-1, "uint", pos)])
  {
  }
}

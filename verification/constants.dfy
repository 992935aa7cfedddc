/** Constants: the translation of a compiler constant after evaluation
    (frontend/exporter/src/types/copied.rs:158-188). A scalar value becomes
    a literal; a type-level constant becomes a literal when its translated
    expression is one, possibly behind a single borrow, and is kept as an
    expression otherwise; everything else is an opaque rendering. */
module Constants {

  import opened Wrappers
  import opened Spans
  import opened Portable

  /** A constant value the evaluator produced: an integer scalar, already
      decoded to the literal it denotes; a scalar that is a pointer (the
      value of a reference-typed constant, say), on which `assert_int`
      panics; or any other representation. */
  datatype ConstValue = Scalar(lit: LitKind) | PointerScalar | OtherValue

  /** The outcome of evaluating a constant: a value, a type-level constant
      (given here by its already translated expression), or a form that
      stays unevaluated. */
  datatype Evaluated = Val(value: ConstValue) | TyLevel(expr: Expr) | Unevaluated

  /** An expression with one outer borrow removed (copied.rs:1909-1916). */
  function UnwrapBorrow(e: Expr): (r: Expr)
    ensures r == e || (e.contents.Borrow? && r == e.contents.arg)
    ensures !e.contents.Borrow? ==> r == e
    ensures r != e ==> r < e
  {
    match e.contents
    case Borrow(arg) => arg
    case _ => e
  }

  /** `UnwrapBorrow` removes only one borrow: it is idempotent exactly on
      expressions that are not a borrow of a borrow. */
  lemma UnwrapBorrowOnce(e: Expr)
    ensures UnwrapBorrow(UnwrapBorrow(e)) == UnwrapBorrow(e) <==>
              !(e.contents.Borrow? && e.contents.arg.contents.Borrow?)
  {
    if e.contents.Borrow? && e.contents.arg.contents.Borrow? {
      assert UnwrapBorrow(UnwrapBorrow(e)) < UnwrapBorrow(e);
    }
  }

  /** The literal a type-level constant's expression denotes, if any: a
      literal, or a borrow of one. */
  predicate DenotesLiteral(e: Expr) {
    e.contents.Literal? || (e.contents.Borrow? && e.contents.arg.contents.Literal?)
  }

  /** The translation of an evaluated constant. `rendering` stands for the
      debug rendering of the constant as written, used for the forms the
      exporter does not translate. The panic of `assert_int` on a pointer
      scalar is an `Err`. */
  function ConstantKindOf(ev: Evaluated, rendering: string): (r: Result<ConstantKind, Fatal>)
    ensures r.Err? <==> ev.Val? && ev.value.PointerScalar?
    ensures r.Ok? && r.value.Lit? <==> (ev.Val? && ev.value.Scalar?) || (ev.TyLevel? && DenotesLiteral(ev.expr))
    ensures r.Ok? && r.value.TodoConst? <==> (ev.Val? && ev.value.OtherValue?) || ev.Unevaluated?
    ensures r.Ok? && r.value.TodoConst? ==> r.value.rendering == rendering
    ensures r.Ok? && r.value.TyConst? ==> ev.TyLevel? && !r.value.constant.contents.Literal?
    ensures r.Ok? && r.value.TyConst? ==>
              r.value.constant == ev.expr || (ev.expr.contents.Borrow? && r.value.constant == ev.expr.contents.arg)
  {
    match ev
    case Val(Scalar(lit)) => Ok(Lit(lit))
    case Val(PointerScalar) => Err(Fatal("assert_int: the scalar is a pointer"))
    case Val(OtherValue) => Ok(TodoConst(rendering))
    case TyLevel(c) =>
      var e := UnwrapBorrow(c);
      (match e.contents
       case Literal(lit, _, _) => Ok(Lit(lit))
       case _ => Ok(TyConst(e)))
    case Unevaluated => Ok(TodoConst(rendering))
  }

  /** A type-level literal, borrowed or not, keeps only its literal: the
      literal's own span and its negation flag are not part of the result. */
  lemma TyLevelLiteral(ty: Ty, span: Span, lit: LitKind, litSpan: Span, neg: bool, rendering: string)
    ensures var e := Decorated(ty, span, ExprKind.Literal(lit, litSpan, neg), None, []);
            && ConstantKindOf(TyLevel(e), rendering) == Ok(Lit(lit))
            && ConstantKindOf(TyLevel(Decorated(ty, span, ExprKind.Borrow(e), None, [])), rendering) == Ok(Lit(lit))
            && ConstantKindOf(TyLevel(e), rendering) == ConstantKindOf(Val(Scalar(lit)), rendering)
  {
  }

  /** A type-level constant that does not denote a literal is kept as its
      expression, with one outer borrow removed. */
  lemma TyLevelExpressionRecoverable(ev: Evaluated, rendering: string)
    requires ev.TyLevel? && !DenotesLiteral(ev.expr)
    ensures ConstantKindOf(ev, rendering) == Ok(TyConst(UnwrapBorrow(ev.expr)))
  {
  }
}

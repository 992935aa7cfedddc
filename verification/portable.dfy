/** The portable tree the exporter emits, reduced to the node kinds the
    normalisation rules act on (frontend/exporter/src/types/copied.rs).
    Every expression and pattern is wrapped in the same `Decorated` envelope. */
module Portable {

  import opened Wrappers
  import opened Identifiers
  import opened Spans

  type HirIndex = (nat, nat)

  datatype AttrStyle = Outer | Inner

  /** An attribute; its kind is kept as an uninterpreted rendering. */
  datatype Attribute = Attribute(kind: string, id: nat, style: AttrStyle, span: Span)

  datatype Ty =
    | Adt(adt: DefId)
    | Tuple(elements: seq<Ty>)
    | FnDef(fnDef: DefId)
    | Named(name: string)

  datatype LitKind =
    | Str(text: string)
    | Char(charValue: char)
    | Int(intValue: nat)
    | Float(floatText: string)
    | Bool(boolValue: bool)
    | ErrLit

  datatype BlockSafety = Safe | BuiltinUnsafe | ExplicitUnsafe

  datatype MacroKind = Bang | Attr | Derive

  datatype ExpnKind =
    | Root
    | Macro(macroKind: MacroKind, macroName: string)
    | AstPass
    | Desugaring

  datatype ExpnData = ExpnData(kind: ExpnKind, callSite: Span, defSite: Span, macroDefId: Option<DefId>)

  /** A folded macro call: the macro, the raw text of its argument and the call site. */
  datatype MacroInvokation = MacroInvokation(macroIdent: DefId, argument: string, span: Span)

  /** A local variable: its declared name and its host identifier. */
  datatype LocalIdent = LocalIdent(name: string, id: nat)

  /** The normalised description of a struct, tuple-struct or enum-variant
      construction or destructuring site (copied.rs:1319-1334). */
  datatype VariantInformations = VariantInformations(
    typeNamespace: DefId,
    typ: DefId,
    variant: DefId,
    typIsRecord: bool,
    variantIsRecord: bool,
    typIsStruct: bool
  )

  /** The uniform envelope of expressions and patterns (copied.rs:99-106). */
  datatype Decorated<T> = Decorated(ty: Ty, span: Span, contents: T, hirId: Option<HirIndex>, attributes: seq<Attribute>)

  type Expr = Decorated<ExprKind>

  type Pat = Decorated<PatKind>

  datatype ExprKind =
    | MacroInvokation(invocation: MacroInvokation)
    | Literal(lit: LitKind, litSpan: Span, neg: bool)
    | GlobalName(id: DefId)
    | ZstLiteral
    | Field(field: DefId, lhs: Expr)
    | TupleField(index: nat, lhs: Expr)
    | Block(block: Block)
    | VarRef(local: LocalIdent)
    | Let(expr: Expr, pat: Pat)
    | Borrow(arg: Expr)
    | Tuple(fields: seq<Expr>)
    | Todo(debug: string)

  datatype Block = Block(targetedByBreak: bool, span: Span, stmts: seq<Stmt>, expr: Option<Expr>, safetyMode: BlockSafety)

  datatype Stmt =
    | ExprStmt(stmtExpr: Expr)
    | LetStmt(pattern: Pat, initializer: Option<Expr>, elseBlock: Option<Block>, letAttributes: seq<Attribute>)

  datatype PatKind =
    | Wild
    | Binding(local: LocalIdent, bindingTy: Ty, subpattern: Option<Pat>)
    | Variant(info: VariantInformations, fieldPats: seq<FieldPat>)
    | TuplePat(subpatterns: seq<Pat>)
    | Deref(derefPat: Pat)
    | Or(pats: seq<Pat>)

  datatype FieldPat = FieldPat(field: DefId, pattern: Pat)

  /** The outcome of lowering a constant (copied.rs:189-197). */
  datatype ConstantKind =
    | TyConst(constant: Expr)
    | Lit(literal: LitKind)
    | TodoConst(rendering: string)

  datatype ItemKind =
    | Translated(description: string)
    | MacroInvokationItem(call: MacroInvokation)

  datatype Item = Item(
    defId: Option<DefId>,
    ownerId: DefId,
    span: Span,
    visSpan: Span,
    kind: ItemKind,
    attributes: seq<Attribute>,
    expnBacktrace: seq<ExpnData>
  )

  // The source positions a portable tree mentions.

  function AttributeSpans(attrs: seq<Attribute>): set<Span> {
    set i | 0 <= i < |attrs| :: attrs[i].span
  }

  function ExprSpans(e: Expr): set<Span>
    decreases e, 1
  {
    {e.span} + AttributeSpans(e.attributes) + KindSpans(e.contents)
  }

  function KindSpans(k: ExprKind): set<Span>
    decreases k, 0
  {
    match k
    case MacroInvokation(call) => {call.span}
    case Literal(_, litSpan, _) => {litSpan}
    case Field(_, lhs) => ExprSpans(lhs)
    case TupleField(_, lhs) => ExprSpans(lhs)
    case Block(b) => BlockSpans(b)
    case Let(x, p) => ExprSpans(x) + PatSpans(p)
    case Borrow(a) => ExprSpans(a)
    case Tuple(fs) => ExprsSpans(fs)
    case _ => {}
  }

  function ExprsSpans(es: seq<Expr>): set<Span>
    decreases es, 0
  {
    if |es| == 0 then {} else ExprSpans(es[0]) + ExprsSpans(es[1..])
  }

  function OptExprSpans(e: Option<Expr>): set<Span>
    decreases e, 0
  {
    match e
    case None => {}
    case Some(x) => ExprSpans(x)
  }

  function BlockSpans(b: Block): set<Span>
    decreases b, 1
  {
    {b.span} + StmtsSpans(b.stmts) + OptExprSpans(b.expr)
  }

  function OptBlockSpans(b: Option<Block>): set<Span>
    decreases b, 0
  {
    match b
    case None => {}
    case Some(x) => BlockSpans(x)
  }

  function StmtsSpans(ss: seq<Stmt>): set<Span>
    decreases ss, 0
  {
    if |ss| == 0 then {} else StmtSpans(ss[0]) + StmtsSpans(ss[1..])
  }

  function StmtSpans(s: Stmt): set<Span>
    decreases s, 0
  {
    match s
    case ExprStmt(x) => ExprSpans(x)
    case LetStmt(p, init, eb, attrs) => PatSpans(p) + OptExprSpans(init) + OptBlockSpans(eb) + AttributeSpans(attrs)
  }

  function PatSpans(p: Pat): set<Span>
    decreases p, 1
  {
    {p.span} + AttributeSpans(p.attributes) + PatKindSpans(p.contents)
  }

  function PatKindSpans(k: PatKind): set<Span>
    decreases k, 0
  {
    match k
    case Wild => {}
    case Binding(_, _, sub) => OptPatSpans(sub)
    case Variant(_, fps) => FieldPatsSpans(fps)
    case TuplePat(ps) => PatsSpans(ps)
    case Deref(sub) => PatSpans(sub)
    case Or(ps) => PatsSpans(ps)
  }

  function OptPatSpans(p: Option<Pat>): set<Span>
    decreases p, 0
  {
    match p
    case None => {}
    case Some(x) => PatSpans(x)
  }

  function PatsSpans(ps: seq<Pat>): set<Span>
    decreases ps, 0
  {
    if |ps| == 0 then {} else PatSpans(ps[0]) + PatsSpans(ps[1..])
  }

  function FieldPatsSpans(fps: seq<FieldPat>): set<Span>
    decreases fps, 0
  {
    if |fps| == 0 then {}
    else
      var fp := fps[0];
      assert fp.pattern < fp;
      PatSpans(fp.pattern) + FieldPatsSpans(fps[1..])
  }
}

/** The compiler-side input of the exporter, reduced to what the
    normalisation rules inspect: the typed expression and pattern trees,
    algebraic type definitions, macro-expansion data, items, and the
    read-only compiler queries gathered in `Ctx`. Sub-expressions are
    owned directly instead of being indices into the typed-body arena. */
module Host {

  import opened Wrappers
  import opened Identifiers
  import opened Spans
  import opened FrontendOptions
  import opened Portable

  /** An interned compiler span; `Ctx.translate` gives its file position. */
  type HostSpan = nat

  type LocalVarId = nat

  type ScopeId = nat

  datatype HostAttribute = HostAttribute(kind: string, id: nat, style: AttrStyle, span: HostSpan)

  datatype HostExpnData = HostExpnData(kind: ExpnKind, callSite: HostSpan, defSite: HostSpan, macroDefId: Option<DefId>)

  datatype AdtKind = StructKind | UnionKind | EnumKind

  datatype FieldDef = FieldDef(did: DefId, name: string)

  datatype VariantDef = VariantDef(defId: DefId, fields: seq<FieldDef>)

  datatype AdtDef = AdtDef(did: DefId, kind: AdtKind, variants: seq<VariantDef>)

  datatype HostTy =
    | AdtTy(adt: AdtDef)
    | TupleTy(elements: seq<HostTy>)
    | FnDefTy(fnDef: DefId)
    | OtherTy(name: string)

  datatype HostExpr = HostExpr(ty: HostTy, span: HostSpan, kind: HostExprKind)

  /** Literal payloads arrive already decoded (`scalar_int_to_literal`). */
  datatype HostExprKind =
    | Scope(region: ScopeId, value: HostExpr)
    | Field(lhs: HostExpr, variantIndex: nat, name: nat)
    | NonHirLiteral(scalar: LitKind)
    | ZstLiteral
    | Literal(lit: LitKind, litSpan: HostSpan, neg: bool)
    | Block(block: HostBlock)
    | VarRef(id: LocalVarId)
    | Let(expr: HostExpr, pat: HostPat)
    | Borrow(arg: HostExpr)
    | Tuple(fields: seq<HostExpr>)
    | Unsupported(debug: string)

  datatype HostBlock = HostBlock(
    targetedByBreak: bool,
    span: HostSpan,
    stmts: seq<HostStmt>,
    expr: Option<HostExpr>,
    safetyMode: BlockSafety
  )

  datatype HostStmt =
    | ExprStmt(stmtExpr: HostExpr)
    | LetStmt(initScope: ScopeId, pattern: HostPat, initializer: Option<HostExpr>, elseBlock: Option<HostBlock>)

  datatype HostPat = HostPat(ty: HostTy, span: HostSpan, kind: HostPatKind)

  datatype HostPatKind =
    | Wild
    | Binding(name: string, localVar: LocalVarId, bindingTy: HostTy, subpattern: Option<HostPat>)
    | Leaf(leafPats: seq<HostFieldPat>)
    | Variant(adt: AdtDef, variantIndex: nat, variantPats: seq<HostFieldPat>)
    | Deref(derefPat: HostPat)
    | Or(pats: seq<HostPat>)

  /** A sub-pattern for the field at position `field` of the matched variant. */
  datatype HostFieldPat = HostFieldPat(field: nat, pattern: HostPat)

  datatype HostItem = HostItem(ownerId: DefId, name: string, span: HostSpan, visSpan: HostSpan, description: string)

  /** The compiler queries and the per-run configuration the translation reads:
      - `translate`: the source-map lookup of `translate_span`;
      - `backtrace`: `Span::macro_backtrace`, innermost expansion first;
      - `macroCalls`: the registered macro call sites, each mapped to the
        span of the call's argument text;
      - `options`, `matches`: the folding allowlist and `Namespace::matches`;
      - `files`: the source files, as lines;
      - `scopeAttributes`: the HIR node and attributes of a region scope;
      - `itemAttributes`: the attributes of an item;
      - `dummySpan`: the compiler's placeholder span. */
  datatype Ctx = Ctx(
    translate: HostSpan -> Span,
    backtrace: HostSpan -> seq<HostExpnData>,
    macroCalls: map<Span, Span>,
    options: Options,
    matches: (Namespace, Path) -> bool,
    files: FileSystem,
    scopeAttributes: ScopeId -> (Option<HirIndex>, seq<HostAttribute>),
    itemAttributes: DefId -> seq<HostAttribute>,
    dummySpan: HostSpan
  )

  /** Every registered argument span can be read without line underflow. */
  predicate ValidCtx(ctx: Ctx) {
    forall call :: call in ctx.macroCalls ==> ReadableSpan(ctx.macroCalls[call], ctx.files)
  }

  // Sizes, for the termination of the mutually recursive lowering.

  function ExprSize(e: HostExpr): nat
    decreases e, 1
  {
    1 + KindSize(e.kind)
  }

  function KindSize(k: HostExprKind): nat
    decreases k, 0
  {
    match k
    case Scope(_, v) => 1 + ExprSize(v)
    case Field(lhs, _, _) => 1 + ExprSize(lhs)
    case Block(b) => 1 + BlockSize(b)
    case Let(e, p) => 1 + ExprSize(e) + PatSize(p)
    case Borrow(a) => 1 + ExprSize(a)
    case Tuple(fs) => 1 + ExprsSize(fs)
    case _ => 1
  }

  function ExprsSize(es: seq<HostExpr>): nat
    decreases es, 0
  {
    if |es| == 0 then 0 else ExprSize(es[0]) + ExprsSize(es[1..])
  }

  function OptExprSize(e: Option<HostExpr>): nat
    decreases e, 0
  {
    match e
    case None => 0
    case Some(x) => ExprSize(x)
  }

  function BlockSize(b: HostBlock): nat
    decreases b, 1
  {
    1 + StmtsSize(b.stmts) + OptExprSize(b.expr)
  }

  function OptBlockSize(b: Option<HostBlock>): nat
    decreases b, 0
  {
    match b
    case None => 0
    case Some(x) => BlockSize(x)
  }

  function StmtsSize(ss: seq<HostStmt>): nat
    decreases ss, 0
  {
    if |ss| == 0 then 0 else StmtSize(ss[0]) + StmtsSize(ss[1..])
  }

  function StmtSize(s: HostStmt): nat
    decreases s, 0
  {
    match s
    case ExprStmt(e) => 1 + ExprSize(e)
    case LetStmt(_, p, i, eb) => 1 + PatSize(p) + OptExprSize(i) + OptBlockSize(eb)
  }

  function PatSize(p: HostPat): nat
    decreases p, 1
  {
    1 + PatKindSize(p.kind)
  }

  function PatKindSize(k: HostPatKind): nat
    decreases k, 0
  {
    match k
    case Binding(_, _, _, sub) => 1 + OptPatSize(sub)
    case Leaf(fps) => 1 + FieldPatsSize(fps)
    case Variant(_, _, fps) => 1 + FieldPatsSize(fps)
    case Deref(sub) => 1 + PatSize(sub)
    case Or(ps) => 1 + PatsSize(ps)
    case Wild => 1
  }

  function OptPatSize(p: Option<HostPat>): nat
    decreases p, 0
  {
    match p
    case None => 0
    case Some(x) => PatSize(x)
  }

  function PatsSize(ps: seq<HostPat>): nat
    decreases ps, 0
  {
    if |ps| == 0 then 0 else PatSize(ps[0]) + PatsSize(ps[1..])
  }

  function FieldPatsSize(fps: seq<HostFieldPat>): nat
    decreases fps, 0
  {
    if |fps| == 0 then 0
    else
      var fp := fps[0];
      assert fp.pattern < fp;
      1 + PatSize(fp.pattern) + FieldPatsSize(fps[1..])
  }

  // The local variables a tree binds (the `var` of its binding patterns).

  function ExprBinders(e: HostExpr): set<LocalVarId>
    decreases e, 1
  {
    KindBinders(e.kind)
  }

  function KindBinders(k: HostExprKind): set<LocalVarId>
    decreases k, 0
  {
    match k
    case Scope(_, v) => ExprBinders(v)
    case Field(lhs, _, _) => ExprBinders(lhs)
    case Block(b) => BlockBinders(b)
    case Let(x, p) => ExprBinders(x) + PatBinders(p)
    case Borrow(a) => ExprBinders(a)
    case Tuple(fs) => ExprsBinders(fs)
    case _ => {}
  }

  function ExprsBinders(es: seq<HostExpr>): set<LocalVarId>
    decreases es, 0
  {
    if |es| == 0 then {} else ExprBinders(es[0]) + ExprsBinders(es[1..])
  }

  function OptExprBinders(e: Option<HostExpr>): set<LocalVarId>
    decreases e, 0
  {
    match e
    case None => {}
    case Some(x) => ExprBinders(x)
  }

  function BlockBinders(b: HostBlock): set<LocalVarId>
    decreases b, 1
  {
    StmtsBinders(b.stmts) + OptExprBinders(b.expr)
  }

  function OptBlockBinders(b: Option<HostBlock>): set<LocalVarId>
    decreases b, 0
  {
    match b
    case None => {}
    case Some(x) => BlockBinders(x)
  }

  function StmtsBinders(ss: seq<HostStmt>): set<LocalVarId>
    decreases ss, 0
  {
    if |ss| == 0 then {} else StmtBinders(ss[0]) + StmtsBinders(ss[1..])
  }

  function StmtBinders(s: HostStmt): set<LocalVarId>
    decreases s, 0
  {
    match s
    case ExprStmt(x) => ExprBinders(x)
    case LetStmt(_, p, init, eb) => PatBinders(p) + OptExprBinders(init) + OptBlockBinders(eb)
  }

  function PatBinders(p: HostPat): set<LocalVarId>
    decreases p, 1
  {
    PatKindBinders(p.kind)
  }

  function PatKindBinders(k: HostPatKind): set<LocalVarId>
    decreases k, 0
  {
    match k
    case Wild => {}
    case Binding(_, v, _, sub) => {v} + OptPatBinders(sub)
    case Leaf(fps) => FieldPatsBinders(fps)
    case Variant(_, _, fps) => FieldPatsBinders(fps)
    case Deref(sub) => PatBinders(sub)
    case Or(ps) => PatsBinders(ps)
  }

  function OptPatBinders(p: Option<HostPat>): set<LocalVarId>
    decreases p, 0
  {
    match p
    case None => {}
    case Some(x) => PatBinders(x)
  }

  function PatsBinders(ps: seq<HostPat>): set<LocalVarId>
    decreases ps, 0
  {
    if |ps| == 0 then {} else PatBinders(ps[0]) + PatsBinders(ps[1..])
  }

  function FieldPatsBinders(fps: seq<HostFieldPat>): set<LocalVarId>
    decreases fps, 0
  {
    if |fps| == 0 then {}
    else
      var fp := fps[0];
      assert fp.pattern < fp;
      PatBinders(fp.pattern) + FieldPatsBinders(fps[1..])
  }
}

/** The normalising translation of typed expressions, blocks, statements
    and patterns into the portable tree (frontend/exporter/src/types/copied.rs:
    `SInto<S, Expr>` at 906-994, `SInto<S, Pat>` at 1002-1043 and the derived
    mappings of `ExprKind`, `Block`, `StmtKind` and `PatKind`).

    The exporter's mutable state is threaded explicitly: `vars` is the table
    of local-variable names that binding patterns fill and variable
    references read, and every translation returns the set of host spans it
    recorded as exported. A fatal diagnostic or a panic is an `Err`. */
module Lowering {

  import opened Wrappers
  import opened Identifiers
  import opened Spans
  import opened Portable
  import opened Host
  import opened Variants
  import opened Items
  import opened Macros

  /** The names of the local variables bound so far. */
  type Vars = map<LocalVarId, string>

  /** A translated node, the variable table after it, and the host spans
      its translation exported. */
  datatype Lowered<T> = Lowered(node: T, vars: Vars, spans: set<HostSpan>)

  /** `after` keeps every variable of `before` and differs from it only on
      the variables in `binders`. */
  predicate Extends(before: Vars, after: Vars, binders: set<LocalVarId>) {
    && (forall x :: x in before ==> x in after)
    && (forall x :: x in after && x !in binders ==> x in before && after[x] == before[x])
  }

  /** The source positions of a set of exported host spans. */
  function Image(ctx: Ctx, hs: set<HostSpan>): set<Span> {
    set h | h in hs :: ctx.translate(h)
  }

  lemma ImageUnion(ctx: Ctx, a: set<HostSpan>, b: set<HostSpan>)
    ensures Image(ctx, a + b) == Image(ctx, a) + Image(ctx, b)
  {
  }

  /** Every translated attribute's span is the translation of an exported
      attribute span. */
  lemma AttributeSpansExported(ctx: Ctx, attrs: seq<HostAttribute>)
    ensures AttributeSpans(LowerAttributes(ctx, attrs)) <= Image(ctx, AttrSpans(attrs))
  {
    var lowered := LowerAttributes(ctx, attrs);
    forall s | s in AttributeSpans(lowered)
      ensures s in Image(ctx, AttrSpans(attrs))
    {
      var i :| 0 <= i < |lowered| && lowered[i].span == s;
      assert attrs[i].span in AttrSpans(attrs);
    }
  }

  // Scopes.

  /** `unroll_scope`: strip every `Scope` wrapper. */
  function UnrollScope(e: HostExpr): (u: HostExpr)
    ensures !u.kind.Scope?
    ensures ExprSize(u) <= ExprSize(e)
    ensures ExprBinders(u) == ExprBinders(e)
    decreases e
  {
    match e.kind
    case Scope(_, v) => UnrollScope(v)
    case _ => e
  }

  /** `u` is `e` or is reached from it through `Scope` wrappers only. */
  predicate ScopeReaches(e: HostExpr, u: HostExpr)
    decreases e
  {
    e == u || (e.kind.Scope? && ScopeReaches(e.kind.value, u))
  }

  /** Unrolling yields the one expression reached through scopes that is
      not itself a scope. */
  lemma {:induction false} UnrollScopeCharacterisation(e: HostExpr, u: HostExpr)
    ensures ScopeReaches(e, UnrollScope(e))
    ensures ScopeReaches(e, u) && !u.kind.Scope? ==> u == UnrollScope(e)
    decreases e
  {
    if e.kind.Scope? {
      UnrollScopeCharacterisation(e.kind.value, u);
    }
  }

  /** Unrolling leaves an expression that is not a scope unchanged, and so
      unrolling twice is unrolling once. */
  lemma UnrollScopeIdempotent(e: HostExpr)
    ensures !e.kind.Scope? ==> UnrollScope(e) == e
    ensures UnrollScope(UnrollScope(e)) == UnrollScope(e)
  {
  }

  /** `hir_id_and_attributes`: only a scope carries a HIR node and
      attributes (`attribute_from_scope`, rustc_utils.rs:252-267). */
  function HirIdAndAttributes(ctx: Ctx, e: HostExpr): (r: (Option<HirIndex>, seq<HostAttribute>))
    ensures !e.kind.Scope? ==> r == (None, [])
  {
    match e.kind
    case Scope(region, _) => ctx.scopeAttributes(region)
    case _ => (None, [])
  }

  function LowerTy(t: HostTy): Ty
    decreases t, 1
  {
    match t
    case AdtTy(adt) => Adt(adt.did)
    case TupleTy(elements) => Ty.Tuple(LowerTys(elements))
    case FnDefTy(d) => FnDef(d)
    case OtherTy(name) => Named(name)
  }

  function LowerTys(ts: seq<HostTy>): (r: seq<Ty>)
    ensures |r| == |ts|
    decreases ts, 0
  {
    if |ts| == 0 then [] else [LowerTy(ts[0])] + LowerTys(ts[1..])
  }

  /** The `LocalVarId` translation: the name recorded for the variable, and
      a panic (`unwrap`) when none was recorded. */
  function LowerLocalVarId(vars: Vars, id: LocalVarId): (r: Result<LocalIdent, Fatal>)
    ensures r.Ok? <==> id in vars
    ensures r.Ok? ==> r.value.name == vars[id] && r.value.id == id
  {
    if id in vars then Ok(LocalIdent(vars[id], id)) else Err(Fatal("called `Option::unwrap()` on a `None` value"))
  }

  /** A block that is only a safe tail expression, not the target of a
      `break`, is replaced by that expression. */
  predicate Absorbs(b: HostBlock) {
    b.stmts == [] && b.expr.Some? && b.safetyMode == Safe && !b.targetedByBreak
  }

  // Expressions.

  /** The contents of a translated expression and the host span it is
      placed at. */
  datatype Contents = Contents(at: HostSpan, kind: ExprKind)

  /** The translation of an expression: the HIR node and attributes of an
      outer scope around the contents of the scope-free expression. */
  function LowerExpr(ctx: Ctx, e: HostExpr, vars: Vars): (r: Result<Lowered<Expr>, Fatal>)
    requires ValidCtx(ctx)
    ensures r.Ok? ==> ExprSpans(r.value.node) <= Image(ctx, r.value.spans)
    ensures r.Ok? ==> Extends(vars, r.value.vars, ExprBinders(e))
    decreases ExprSize(e), 3
  {
    var (hirId, hostAttrs) := HirIdAndAttributes(ctx, e);
    var c :- LowerContents(ctx, e, vars);
    var ty := LowerTy(UnrollScope(e).ty);
    AttributeSpansExported(ctx, hostAttrs);
    ImageUnion(ctx, AttrSpans(hostAttrs), c.spans);
    Ok(Lowered(Decorated(ty, ctx.translate(c.node.at), c.node.kind, hirId, LowerAttributes(ctx, hostAttrs)),
               c.vars, AttrSpans(hostAttrs) + c.spans))
  }

  /** The contents of the scope-free expression: a foldable macro call wins
      over everything else; a non-HIR literal becomes a literal at the
      expression's span; a function item becomes a global name placed at the
      span of the expression before unrolling; a field access is resolved
      against the type of its base; every other kind takes the derived
      translation. */
  function LowerContents(ctx: Ctx, e: HostExpr, vars: Vars): (r: Result<Lowered<Contents>, Fatal>)
    requires ValidCtx(ctx)
    ensures r.Ok? ==> r.value.node.at in r.value.spans
    ensures r.Ok? ==> KindSpans(r.value.node.kind) <= Image(ctx, r.value.spans)
    ensures r.Ok? ==> Extends(vars, r.value.vars, ExprBinders(e))
    decreases ExprSize(e), 2
  {
    var u := UnrollScope(e);
    var folded :- MacroInvocationOfSpan(ctx, u.span);
    if folded.Some? then
      Ok(Lowered(Contents(u.span, ExprKind.MacroInvokation(folded.value.call)), vars, {u.span, folded.value.callSite}))
    else
      LowerUnfolded(ctx, e, vars)
  }

  /** The contents of a scope-free expression that no foldable macro call
      produced. */
  function LowerUnfolded(ctx: Ctx, e: HostExpr, vars: Vars): (r: Result<Lowered<Contents>, Fatal>)
    requires ValidCtx(ctx)
    ensures r.Ok? ==> r.value.node.at in r.value.spans
    ensures r.Ok? ==> KindSpans(r.value.node.kind) <= Image(ctx, r.value.spans)
    ensures r.Ok? ==> Extends(vars, r.value.vars, ExprBinders(e))
    decreases ExprSize(e), 1
  {
    var u := UnrollScope(e);
    match u.kind
      case NonHirLiteral(lit) =>
        Ok(Lowered(Contents(u.span, ExprKind.Literal(lit, ctx.translate(u.span), false)), vars, {u.span}))
      case ZstLiteral =>
        if u.ty.FnDefTy? then Ok(Lowered(Contents(e.span, GlobalName(u.ty.fnDef)), vars, {e.span}))
        else Ok(Lowered(Contents(u.span, ExprKind.ZstLiteral), vars, {u.span}))
      case Field(lhs, variantIndex, name) =>
        var k :- LowerFieldAccess(ctx, u, vars);
        Ok(Lowered(Contents(u.span, k.node), k.vars, k.spans + {u.span}))
      case Scope(_, _) => assert false; Err(Fatal("Scope should have been eliminated at this point"))
      case Literal(_, _, _) | Block(_) | VarRef(_) | Let(_, _) | Borrow(_) | Tuple(_) | Unsupported(_) =>
        var k :- LowerExprKind(ctx, u.kind, vars);
        Ok(Lowered(Contents(u.span, k.node), k.vars, k.spans + {u.span}))
  }

  /** A field access: a named field of the variant of an ADT, or a
      positional field of a tuple; any other base type is fatal. */
  function LowerFieldAccess(ctx: Ctx, u: HostExpr, vars: Vars): (r: Result<Lowered<ExprKind>, Fatal>)
    requires ValidCtx(ctx) && u.kind.Field?
    ensures r.Ok? ==> KindSpans(r.value.node) <= Image(ctx, r.value.spans)
    ensures r.Ok? ==> Extends(vars, r.value.vars, ExprBinders(u))
    decreases ExprSize(u), 0
  {
    var lhs := u.kind.lhs;
    var variantIndex := u.kind.variantIndex;
    var name := u.kind.name;
    assert ExprSize(lhs) < ExprSize(u) by {
      assert ExprSize(u) == 1 + KindSize(u.kind) == 2 + ExprSize(lhs);
    }
    if lhs.ty.AdtTy? then
      var adt := lhs.ty.adt;
      if variantIndex >= |adt.variants| || name >= |adt.variants[variantIndex].fields| then
        Err(Fatal("index out of bounds"))
      else
        var base :- LowerExpr(ctx, lhs, vars);
        Ok(Lowered(ExprKind.Field(adt.variants[variantIndex].fields[name].did, base.node), base.vars, base.spans))
    else if lhs.ty.TupleTy? then
      var base :- LowerExpr(ctx, lhs, vars);
      Ok(Lowered(TupleField(name, base.node), base.vars, base.spans))
    else
      Err(Fatal("ExprKindFieldBadTy"))
  }

  /** The derived translation of expression kinds. Scopes, field accesses
      and non-HIR literals are handled by `LowerContents` before reaching it
      and are fatal here. */
  function LowerExprKind(ctx: Ctx, k: HostExprKind, vars: Vars): (r: Result<Lowered<ExprKind>, Fatal>)
    requires ValidCtx(ctx)
    ensures r.Ok? ==> KindSpans(r.value.node) <= Image(ctx, r.value.spans)
    ensures r.Ok? ==> Extends(vars, r.value.vars, KindBinders(k))
    decreases KindSize(k), 1
  {
    match k
    case Block(b) => LowerBlockExpr(ctx, b, vars)
    case Let(_, _) => LowerLetExpr(ctx, k, vars)
    case Borrow(_) => LowerBorrowExpr(ctx, k, vars)
    case Tuple(_) => LowerTupleExpr(ctx, k, vars)
    case _ => LowerLeafKind(ctx, k, vars)
  }

  /** The kinds without sub-expressions. A variable reference reads the
      name recorded for its variable. */
  function LowerLeafKind(ctx: Ctx, k: HostExprKind, vars: Vars): (r: Result<Lowered<ExprKind>, Fatal>)
    requires !k.Block? && !k.Let? && !k.Borrow? && !k.Tuple?
    ensures r.Ok? ==> KindSpans(r.value.node) <= Image(ctx, r.value.spans)
    ensures r.Ok? ==> r.value.vars == vars
  {
    match k
    case Scope(_, _) => Err(Fatal("Scope should have been eliminated at this point"))
    case Field(_, _, _) => Err(Fatal("Field should have been eliminated at this point"))
    case NonHirLiteral(_) => Err(Fatal("NonHirLiteral should have been eliminated at this point"))
    case ZstLiteral => Ok(Lowered(ExprKind.ZstLiteral, vars, {}))
    case Literal(lit, litSpan, neg) => Ok(Lowered(ExprKind.Literal(lit, ctx.translate(litSpan), neg), vars, {litSpan}))
    case VarRef(id) =>
      var local :- LowerLocalVarId(vars, id);
      Ok(Lowered(ExprKind.VarRef(local), vars, {}))
    case Unsupported(debug) => Ok(Lowered(Todo(debug), vars, {}))
  }

  function LowerBorrowExpr(ctx: Ctx, k: HostExprKind, vars: Vars): (r: Result<Lowered<ExprKind>, Fatal>)
    requires ValidCtx(ctx) && k.Borrow?
    ensures r.Ok? ==> KindSpans(r.value.node) <= Image(ctx, r.value.spans)
    ensures r.Ok? ==> Extends(vars, r.value.vars, KindBinders(k))
    decreases KindSize(k), 0
  {
    var la :- LowerExpr(ctx, k.arg, vars);
    Ok(Lowered(ExprKind.Borrow(la.node), la.vars, la.spans))
  }

  function LowerTupleExpr(ctx: Ctx, k: HostExprKind, vars: Vars): (r: Result<Lowered<ExprKind>, Fatal>)
    requires ValidCtx(ctx) && k.Tuple?
    ensures r.Ok? ==> KindSpans(r.value.node) <= Image(ctx, r.value.spans)
    ensures r.Ok? ==> Extends(vars, r.value.vars, KindBinders(k))
    decreases KindSize(k), 0
  {
    var lfs :- LowerExprs(ctx, k.fields, vars);
    Ok(Lowered(ExprKind.Tuple(lfs.node), lfs.vars, lfs.spans))
  }

  /** `let` in expression position: the scrutinee, then the pattern, whose
      bindings are visible afterwards. */
  function LowerLetExpr(ctx: Ctx, k: HostExprKind, vars: Vars): (r: Result<Lowered<ExprKind>, Fatal>)
    requires ValidCtx(ctx) && k.Let?
    ensures r.Ok? ==> KindSpans(r.value.node) <= Image(ctx, r.value.spans)
    ensures r.Ok? ==> Extends(vars, r.value.vars, KindBinders(k))
    decreases KindSize(k), 0
  {
    var lx :- LowerExpr(ctx, k.expr, vars);
    var lp :- LowerPat(ctx, k.pat, lx.vars);
    ImageUnion(ctx, lx.spans, lp.spans);
    Ok(Lowered(ExprKind.Let(lx.node, lp.node), lp.vars, lx.spans + lp.spans))
  }

  /** A block expression: an absorbed block is replaced by the contents of
      its tail expression; any other block is kept. */
  function LowerBlockExpr(ctx: Ctx, b: HostBlock, vars: Vars): (r: Result<Lowered<ExprKind>, Fatal>)
    requires ValidCtx(ctx)
    ensures r.Ok? ==> KindSpans(r.value.node) <= Image(ctx, r.value.spans)
    ensures r.Ok? ==> Extends(vars, r.value.vars, BlockBinders(b))
    decreases BlockSize(b), 3
  {
    if Absorbs(b) then
      assert ExprSize(b.expr.value) < BlockSize(b) by {
        assert BlockSize(b) == 1 + StmtsSize(b.stmts) + OptExprSize(b.expr);
      }
      var inner :- LowerExpr(ctx, b.expr.value, vars);
      assert KindSpans(inner.node.contents) <= ExprSpans(inner.node);
      assert BlockBinders(b) == StmtsBinders([]) + OptExprBinders(b.expr);
      Ok(Lowered(inner.node.contents, inner.vars, inner.spans))
    else
      var lb :- LowerBlock(ctx, b, vars);
      Ok(Lowered(ExprKind.Block(lb.node), lb.vars, lb.spans))
  }

  function LowerExprs(ctx: Ctx, es: seq<HostExpr>, vars: Vars): (r: Result<Lowered<seq<Expr>>, Fatal>)
    requires ValidCtx(ctx)
    ensures r.Ok? ==> |r.value.node| == |es|
    ensures r.Ok? ==> ExprsSpans(r.value.node) <= Image(ctx, r.value.spans)
    ensures r.Ok? ==> Extends(vars, r.value.vars, ExprsBinders(es))
    decreases ExprsSize(es), 4
  {
    if |es| == 0 then Ok(Lowered([], vars, {}))
    else
      var head :- LowerExpr(ctx, es[0], vars);
      var rest :- LowerExprs(ctx, es[1..], head.vars);
      assert ([head.node] + rest.node)[1..] == rest.node;
      Ok(Lowered([head.node] + rest.node, rest.vars, head.spans + rest.spans))
  }

  function LowerOptExpr(ctx: Ctx, e: Option<HostExpr>, vars: Vars): (r: Result<Lowered<Option<Expr>>, Fatal>)
    requires ValidCtx(ctx)
    ensures r.Ok? ==> r.value.node.Some? == e.Some?
    ensures r.Ok? ==> OptExprSpans(r.value.node) <= Image(ctx, r.value.spans)
    ensures r.Ok? ==> Extends(vars, r.value.vars, OptExprBinders(e))
    decreases OptExprSize(e), 4
  {
    match e
    case None => Ok(Lowered(None, vars, {}))
    case Some(x) =>
      var lx :- LowerExpr(ctx, x, vars);
      Ok(Lowered(Some(lx.node), lx.vars, lx.spans))
  }

  // Blocks and statements.

  function LowerBlock(ctx: Ctx, b: HostBlock, vars: Vars): (r: Result<Lowered<Block>, Fatal>)
    requires ValidCtx(ctx)
    ensures r.Ok? ==> |r.value.node.stmts| == |b.stmts| && r.value.node.expr.Some? == b.expr.Some?
    ensures r.Ok? ==> r.value.node.safetyMode == b.safetyMode && r.value.node.targetedByBreak == b.targetedByBreak
    ensures r.Ok? ==> BlockSpans(r.value.node) <= Image(ctx, r.value.spans)
    ensures r.Ok? ==> Extends(vars, r.value.vars, BlockBinders(b))
    decreases BlockSize(b), 2
  {
    var ls :- LowerStmts(ctx, b.stmts, vars);
    var lx :- LowerOptExpr(ctx, b.expr, ls.vars);
    Ok(Lowered(Block.Block(b.targetedByBreak, ctx.translate(b.span), ls.node, lx.node, b.safetyMode),
               lx.vars, {b.span} + ls.spans + lx.spans))
  }

  function LowerOptBlock(ctx: Ctx, b: Option<HostBlock>, vars: Vars): (r: Result<Lowered<Option<Block>>, Fatal>)
    requires ValidCtx(ctx)
    ensures r.Ok? ==> r.value.node.Some? == b.Some?
    ensures r.Ok? ==> OptBlockSpans(r.value.node) <= Image(ctx, r.value.spans)
    ensures r.Ok? ==> Extends(vars, r.value.vars, OptBlockBinders(b))
    decreases OptBlockSize(b), 3
  {
    match b
    case None => Ok(Lowered(None, vars, {}))
    case Some(x) =>
      var lx :- LowerBlock(ctx, x, vars);
      Ok(Lowered(Some(lx.node), lx.vars, lx.spans))
  }

  function LowerStmts(ctx: Ctx, ss: seq<HostStmt>, vars: Vars): (r: Result<Lowered<seq<Stmt>>, Fatal>)
    requires ValidCtx(ctx)
    ensures r.Ok? ==> |r.value.node| == |ss|
    ensures r.Ok? ==> StmtsSpans(r.value.node) <= Image(ctx, r.value.spans)
    ensures r.Ok? ==> Extends(vars, r.value.vars, StmtsBinders(ss))
    decreases StmtsSize(ss), 2
  {
    if |ss| == 0 then Ok(Lowered([], vars, {}))
    else
      var head :- LowerStmt(ctx, ss[0], vars);
      var rest :- LowerStmts(ctx, ss[1..], head.vars);
      assert ([head.node] + rest.node)[1..] == rest.node;
      Ok(Lowered([head.node] + rest.node, rest.vars, head.spans + rest.spans))
  }

  /** A `let` statement translates its pattern before its initializer and
      takes its attributes from its initializer scope. */
  function LowerStmt(ctx: Ctx, s: HostStmt, vars: Vars): (r: Result<Lowered<Stmt>, Fatal>)
    requires ValidCtx(ctx)
    ensures r.Ok? ==> StmtSpans(r.value.node) <= Image(ctx, r.value.spans)
    ensures r.Ok? ==> Extends(vars, r.value.vars, StmtBinders(s))
    decreases StmtSize(s), 1
  {
    match s
    case ExprStmt(x) =>
      var lx :- LowerExpr(ctx, x, vars);
      Ok(Lowered(Stmt.ExprStmt(lx.node), lx.vars, lx.spans))
    case LetStmt(_, _, _, _) => LowerLetStmt(ctx, s, vars)
  }

  function LowerLetStmt(ctx: Ctx, s: HostStmt, vars: Vars): (r: Result<Lowered<Stmt>, Fatal>)
    requires ValidCtx(ctx) && s.LetStmt?
    ensures r.Ok? ==> StmtSpans(r.value.node) <= Image(ctx, r.value.spans)
    ensures r.Ok? ==> Extends(vars, r.value.vars, StmtBinders(s))
    decreases StmtSize(s), 0
  {
    match s
    case LetStmt(initScope, p, init, eb) =>
      var lp :- LowerPat(ctx, p, vars);
      var li :- LowerOptExpr(ctx, init, lp.vars);
      var le :- LowerOptBlock(ctx, eb, li.vars);
      var attrs := ctx.scopeAttributes(initScope).1;
      AttributeSpansExported(ctx, attrs);
      ImageUnion(ctx, lp.spans + li.spans + le.spans, AttrSpans(attrs));
      ImageUnion(ctx, lp.spans + li.spans, le.spans);
      ImageUnion(ctx, lp.spans, li.spans);
      Ok(Lowered(Stmt.LetStmt(lp.node, li.node, le.node, LowerAttributes(ctx, attrs)),
                 le.vars, lp.spans + li.spans + le.spans + AttrSpans(attrs)))
  }

  // Patterns.

  /** The translation of a pattern: no HIR node, no attributes; a `Leaf`
      pattern is a pattern on the only variant of a struct or a tuple
      pattern, and fatal on any other type. */
  function LowerPat(ctx: Ctx, p: HostPat, vars: Vars): (r: Result<Lowered<Pat>, Fatal>)
    ensures r.Ok? ==> r.value.node.hirId.None? && r.value.node.attributes == []
    ensures r.Ok? ==> PatSpans(r.value.node) <= Image(ctx, r.value.spans)
    ensures r.Ok? ==> Extends(vars, r.value.vars, PatBinders(p))
    decreases PatSize(p), 2
  {
    var k :- LowerPatContents(ctx, p, vars);
    Ok(Lowered(Decorated(LowerTy(p.ty), ctx.translate(p.span), k.node, None, []), k.vars, k.spans + {p.span}))
  }

  function LowerPatContents(ctx: Ctx, p: HostPat, vars: Vars): (r: Result<Lowered<PatKind>, Fatal>)
    ensures r.Ok? ==> PatKindSpans(r.value.node) <= Image(ctx, r.value.spans)
    ensures r.Ok? ==> Extends(vars, r.value.vars, PatBinders(p))
    decreases PatSize(p), 1
  {
    match p.kind
    case Leaf(fps) =>
      assert FieldPatsSize(fps) < PatSize(p) by {
        assert PatSize(p) == 1 + PatKindSize(p.kind) == 2 + FieldPatsSize(fps);
      }
      if p.ty.AdtTy? then LowerVariantPat(ctx, p.ty.adt, 0, fps, vars)
      else if p.ty.TupleTy? then
        var lps :- LowerLeafTuple(ctx, fps, vars);
        Ok(Lowered(TuplePat(lps.node), lps.vars, lps.spans))
      else Err(Fatal("PatLeafNonAdtTy"))
    case _ => LowerPatKind(ctx, p.kind, vars)
  }

  /** The derived translation of pattern kinds. A binding records its
      variable's name before anything else; `Leaf` is handled by `LowerPat`
      and fatal here. */
  function LowerPatKind(ctx: Ctx, k: HostPatKind, vars: Vars): (r: Result<Lowered<PatKind>, Fatal>)
    ensures r.Ok? ==> PatKindSpans(r.value.node) <= Image(ctx, r.value.spans)
    ensures r.Ok? ==> Extends(vars, r.value.vars, PatKindBinders(k))
    decreases PatKindSize(k), 1
  {
    match k
    case Wild => Ok(Lowered(PatKind.Wild, vars, {}))
    case Binding(name, v, bindingTy, sub) =>
      var bound := vars[v := name];
      var local := LowerLocalVarId(bound, v).value;
      var ls :- LowerOptPat(ctx, sub, bound);
      Ok(Lowered(PatKind.Binding(local, LowerTy(bindingTy), ls.node), ls.vars, ls.spans))
    case Leaf(_) => Err(Fatal("PatKind::Leaf: should never come up"))
    case Variant(adt, variantIndex, fps) => LowerVariantPat(ctx, adt, variantIndex, fps, vars)
    case Deref(sub) =>
      var ls :- LowerPat(ctx, sub, vars);
      Ok(Lowered(PatKind.Deref(ls.node), ls.vars, ls.spans))
    case Or(ps) =>
      var lps :- LowerPats(ctx, ps, vars);
      Ok(Lowered(PatKind.Or(lps.node), lps.vars, lps.spans))
  }

  /** A pattern on variant `variantIndex` of `adt`: its variant information
      and, for each sub-pattern, the identifier of the field it matches. */
  function LowerVariantPat(ctx: Ctx, adt: AdtDef, variantIndex: nat, fps: seq<HostFieldPat>, vars: Vars)
    : (r: Result<Lowered<PatKind>, Fatal>)
    ensures r.Ok? ==> PatKindSpans(r.value.node) <= Image(ctx, r.value.spans)
    ensures r.Ok? ==> Extends(vars, r.value.vars, FieldPatsBinders(fps))
    decreases FieldPatsSize(fps), 1
  {
    if variantIndex >= |adt.variants| then Err(Fatal("index out of bounds"))
    else
      var variant := adt.variants[variantIndex];
      var info :- GetVariantInformation(adt, variant.defId);
      var lfs :- LowerFieldPats(ctx, variant, fps, vars);
      Ok(Lowered(PatKind.Variant(info, lfs.node), lfs.vars, lfs.spans))
  }

  function LowerFieldPats(ctx: Ctx, variant: VariantDef, fps: seq<HostFieldPat>, vars: Vars)
    : (r: Result<Lowered<seq<FieldPat>>, Fatal>)
    ensures r.Ok? ==> |r.value.node| == |fps|
    ensures r.Ok? ==> forall i :: 0 <= i < |fps| ==>
                        (fps[i].field < |variant.fields| && r.value.node[i].field == variant.fields[fps[i].field].did)
    ensures r.Ok? ==> FieldPatsSpans(r.value.node) <= Image(ctx, r.value.spans)
    ensures r.Ok? ==> Extends(vars, r.value.vars, FieldPatsBinders(fps))
    decreases FieldPatsSize(fps), 0
  {
    if |fps| == 0 then Ok(Lowered([], vars, {}))
    else
      var fp := fps[0];
      if fp.field >= |variant.fields| then Err(Fatal("index out of bounds"))
      else
        var lp :- LowerPat(ctx, fp.pattern, vars);
        var rest :- LowerFieldPats(ctx, variant, fps[1..], lp.vars);
        var node := [FieldPat(variant.fields[fp.field].did, lp.node)] + rest.node;
        assert node[1..] == rest.node;
        assert forall i :: 1 <= i < |fps| ==> fps[i] == fps[1..][i - 1] && node[i] == rest.node[i - 1];
        Ok(Lowered(node, rest.vars, lp.spans + rest.spans))
  }

  /** The sub-patterns of a `Leaf` on a tuple, in order; field indices are dropped. */
  function LowerLeafTuple(ctx: Ctx, fps: seq<HostFieldPat>, vars: Vars): (r: Result<Lowered<seq<Pat>>, Fatal>)
    ensures r.Ok? ==> |r.value.node| == |fps|
    ensures r.Ok? ==> PatsSpans(r.value.node) <= Image(ctx, r.value.spans)
    ensures r.Ok? ==> Extends(vars, r.value.vars, FieldPatsBinders(fps))
    decreases FieldPatsSize(fps), 0
  {
    if |fps| == 0 then Ok(Lowered([], vars, {}))
    else
      var fp := fps[0];
      var lp :- LowerPat(ctx, fp.pattern, vars);
      var rest :- LowerLeafTuple(ctx, fps[1..], lp.vars);
      assert ([lp.node] + rest.node)[1..] == rest.node;
      Ok(Lowered([lp.node] + rest.node, rest.vars, lp.spans + rest.spans))
  }

  function LowerPats(ctx: Ctx, ps: seq<HostPat>, vars: Vars): (r: Result<Lowered<seq<Pat>>, Fatal>)
    ensures r.Ok? ==> |r.value.node| == |ps|
    ensures r.Ok? ==> PatsSpans(r.value.node) <= Image(ctx, r.value.spans)
    ensures r.Ok? ==> Extends(vars, r.value.vars, PatsBinders(ps))
    decreases PatsSize(ps), 3
  {
    if |ps| == 0 then Ok(Lowered([], vars, {}))
    else
      var head :- LowerPat(ctx, ps[0], vars);
      var rest :- LowerPats(ctx, ps[1..], head.vars);
      assert ([head.node] + rest.node)[1..] == rest.node;
      Ok(Lowered([head.node] + rest.node, rest.vars, head.spans + rest.spans))
  }

  function LowerOptPat(ctx: Ctx, p: Option<HostPat>, vars: Vars): (r: Result<Lowered<Option<Pat>>, Fatal>)
    ensures r.Ok? ==> r.value.node.Some? == p.Some?
    ensures r.Ok? ==> OptPatSpans(r.value.node) <= Image(ctx, r.value.spans)
    ensures r.Ok? ==> Extends(vars, r.value.vars, OptPatBinders(p))
    decreases OptPatSize(p), 3
  {
    match p
    case None => Ok(Lowered(None, vars, {}))
    case Some(x) =>
      var lx :- LowerPat(ctx, x, vars);
      Ok(Lowered(Some(lx.node), lx.vars, lx.spans))
  }
}

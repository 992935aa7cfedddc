/** Properties of the expression and pattern translation, and the
    translation as a step on the exporter's state. */
module LoweringFacts {

  import opened Wrappers
  import opened Identifiers
  import opened Spans
  import opened Portable
  import opened Host
  import opened Variants
  import opened Items
  import opened Macros
  import opened Lowering

  /** A translated expression carries the type of its scope-free form, the
      contents and placement `LowerContents` chose, and the variables it
      left behind. */
  lemma ExprFromContents(ctx: Ctx, e: HostExpr, vars: Vars)
    requires ValidCtx(ctx)
    ensures var r := LowerExpr(ctx, e, vars);
            var c := LowerContents(ctx, e, vars);
            && (r.Ok? <==> c.Ok?)
            && (r.Ok? ==> && r.value.node.contents == c.value.node.kind
                          && r.value.node.span == ctx.translate(c.value.node.at)
                          && r.value.node.ty == LowerTy(UnrollScope(e).ty)
                          && r.value.vars == c.value.vars)
  {
  }

  /** Without a folded call, the contents are those of the scope-free
      expression. */
  lemma NoMacroContents(ctx: Ctx, e: HostExpr, vars: Vars)
    requires ValidCtx(ctx)
    requires MacroInvocationOfSpan(ctx, UnrollScope(e).span) == Ok(None)
    ensures LowerContents(ctx, e, vars) == LowerUnfolded(ctx, e, vars)
  {
  }

  /** The same for patterns. */
  lemma PatFromContents(ctx: Ctx, p: HostPat, vars: Vars)
    ensures var r := LowerPat(ctx, p, vars);
            var c := LowerPatContents(ctx, p, vars);
            && (r.Ok? <==> c.Ok?)
            && (r.Ok? ==> r.value.node.contents == c.value.node && r.value.vars == c.value.vars)
  {
  }

  /** A foldable macro call at the span of the scope-free expression wins
      over whatever the expression is (copied.rs:912-914): the contents are
      the folded call, nothing is bound, and nothing below is translated, so
      even an ill-typed field access is not fatal. */
  lemma MacroWins(ctx: Ctx, e: HostExpr, vars: Vars)
    requires ValidCtx(ctx)
    requires MacroInvocationOfSpan(ctx, UnrollScope(e).span).Ok?
    requires MacroInvocationOfSpan(ctx, UnrollScope(e).span).value.Some?
    ensures var call := MacroInvocationOfSpan(ctx, UnrollScope(e).span).value.value;
            var r := LowerExpr(ctx, e, vars);
            && r.Ok?
            && r.value.node.contents == ExprKind.MacroInvokation(call.call)
            && r.value.node.span == ctx.translate(UnrollScope(e).span)
            && r.value.vars == vars
            && call.callSite in r.value.spans
  {
  }

  /** A failed read of a folded call's argument is fatal for the whole
      expression. */
  lemma MacroReadFailureIsFatal(ctx: Ctx, e: HostExpr, vars: Vars)
    requires ValidCtx(ctx)
    requires MacroInvocationOfSpan(ctx, UnrollScope(e).span).Err?
    ensures LowerExpr(ctx, e, vars).Err?
  {
  }

  /** Without a folded call, a field access on a struct-like value names the
      field's definition, one on a tuple keeps its position, and one on any
      other type is fatal (copied.rs:950-986). */
  lemma FieldAccess(ctx: Ctx, e: HostExpr, vars: Vars)
    requires ValidCtx(ctx)
    requires MacroInvocationOfSpan(ctx, UnrollScope(e).span) == Ok(None)
    requires UnrollScope(e).kind.Field?
    ensures var f := UnrollScope(e).kind;
            var r := LowerExpr(ctx, e, vars);
            var base := LowerExpr(ctx, f.lhs, vars);
            && (f.lhs.ty.AdtTy? ==>
                  var adt := f.lhs.ty.adt;
                  (r.Ok? <==> f.variantIndex < |adt.variants| && f.name < |adt.variants[f.variantIndex].fields| && base.Ok?)
                  && (r.Ok? ==> r.value.node.contents == ExprKind.Field(adt.variants[f.variantIndex].fields[f.name].did, base.value.node)))
            && (f.lhs.ty.TupleTy? ==>
                  (r.Ok? <==> base.Ok?)
                  && (r.Ok? ==> r.value.node.contents == TupleField(f.name, base.value.node)))
            && (!f.lhs.ty.AdtTy? && !f.lhs.ty.TupleTy? ==> r.Err?)
  {
    var u := UnrollScope(e);
    ExprFromContents(ctx, e, vars);
    NoMacroContents(ctx, e, vars);
    var k := LowerFieldAccess(ctx, u, vars);
    assert LowerContents(ctx, e, vars).Ok? <==> k.Ok?;
    assert LowerContents(ctx, e, vars).Ok? ==> LowerContents(ctx, e, vars).value.node.kind == k.value.node;
  }

  /** Without a folded call, a non-HIR literal becomes a non-negated literal
      placed at the expression's own span. */
  lemma NonHirLiteralIsLiteral(ctx: Ctx, e: HostExpr, vars: Vars)
    requires ValidCtx(ctx)
    requires MacroInvocationOfSpan(ctx, UnrollScope(e).span) == Ok(None)
    requires UnrollScope(e).kind.NonHirLiteral?
    ensures var u := UnrollScope(e);
            LowerExpr(ctx, e, vars).Ok?
            && LowerExpr(ctx, e, vars).value.node.contents == ExprKind.Literal(u.kind.scalar, ctx.translate(u.span), false)
  {
    ExprFromContents(ctx, e, vars);
    NoMacroContents(ctx, e, vars);
  }

  /** Without a folded call, a function item becomes a global name placed
      at the span of the expression as written, scopes included
      (copied.rs:934-940), and any other zero-sized literal stays one. */
  lemma ZstLiteralLowering(ctx: Ctx, e: HostExpr, vars: Vars)
    requires ValidCtx(ctx)
    requires MacroInvocationOfSpan(ctx, UnrollScope(e).span) == Ok(None)
    requires UnrollScope(e).kind.ZstLiteral?
    ensures var u := UnrollScope(e);
            var r := LowerExpr(ctx, e, vars);
            && r.Ok?
            && (u.ty.FnDefTy? ==> r.value.node.contents == GlobalName(u.ty.fnDef) && r.value.node.span == ctx.translate(e.span))
            && (!u.ty.FnDefTy? ==> r.value.node.contents == ExprKind.ZstLiteral && r.value.node.span == ctx.translate(u.span))
  {
    ExprFromContents(ctx, e, vars);
    NoMacroContents(ctx, e, vars);
  }

  /** Without a folded call, a block that is only a safe tail expression and
      is not the target of a `break` is replaced by the contents of that
      expression; every other block is kept as a block (copied.rs:1726-1737). */
  lemma BlockAbsorption(ctx: Ctx, e: HostExpr, vars: Vars)
    requires ValidCtx(ctx)
    requires MacroInvocationOfSpan(ctx, UnrollScope(e).span) == Ok(None)
    requires UnrollScope(e).kind.Block?
    ensures var b := UnrollScope(e).kind.block;
            var r := LowerExpr(ctx, e, vars);
            && (Absorbs(b) ==>
                  var inner := LowerExpr(ctx, b.expr.value, vars);
                  (r.Ok? <==> inner.Ok?) && (r.Ok? ==> r.value.node.contents == inner.value.node.contents))
            && (!Absorbs(b) ==>
                  var block := LowerBlock(ctx, b, vars);
                  (r.Ok? <==> block.Ok?) && (r.Ok? ==> r.value.node.contents == ExprKind.Block(block.value.node)))
  {
    var u := UnrollScope(e);
    ExprFromContents(ctx, e, vars);
    NoMacroContents(ctx, e, vars);
    var k := LowerExprKind(ctx, u.kind, vars);
    assert k == LowerBlockExpr(ctx, u.kind.block, vars);
    assert LowerContents(ctx, e, vars).Ok? <==> k.Ok?;
    assert LowerContents(ctx, e, vars).Ok? ==> LowerContents(ctx, e, vars).value.node.kind == k.value.node;
  }

  /** A variable reference translates exactly when its variable was bound,
      and carries the recorded name. */
  lemma VarRefLookup(ctx: Ctx, k: HostExprKind, vars: Vars)
    requires ValidCtx(ctx) && k.VarRef?
    ensures var r := LowerExprKind(ctx, k, vars);
            && (r.Ok? <==> k.id in vars)
            && (r.Ok? ==> r.value.node == ExprKind.VarRef(LocalIdent(vars[k.id], k.id)) && r.value.vars == vars)
  {
  }

  /** A binding pattern records its variable's name, which its own
      translation and every later reference read back. */
  lemma BindingRecordsName(ctx: Ctx, p: HostPat, vars: Vars)
    requires p.kind.Binding?
    requires p.kind.localVar !in OptPatBinders(p.kind.subpattern)
    ensures var r := LowerPat(ctx, p, vars);
            var sub := LowerOptPat(ctx, p.kind.subpattern, vars[p.kind.localVar := p.kind.name]);
            && (r.Ok? <==> sub.Ok?)
            && (r.Ok? ==> && r.value.node.contents.Binding?
                          && r.value.node.contents.local == LocalIdent(p.kind.name, p.kind.localVar)
                          && p.kind.localVar in r.value.vars
                          && r.value.vars[p.kind.localVar] == p.kind.name)
  {
    var bound := vars[p.kind.localVar := p.kind.name];
    var sub := LowerOptPat(ctx, p.kind.subpattern, bound);
    PatFromContents(ctx, p, vars);
    assert LowerPatContents(ctx, p, vars) == LowerPatKind(ctx, p.kind, vars);
    assert LowerLocalVarId(bound, p.kind.localVar).value == LocalIdent(p.kind.name, p.kind.localVar);
    if sub.Ok? {
      assert Extends(bound, sub.value.vars, OptPatBinders(p.kind.subpattern));
    }
  }

  /** Without a folded call, a variable reference expression translates
      exactly when its variable was bound, to the recorded name. */
  lemma VarRefExpr(ctx: Ctx, x: HostExpr, vars: Vars)
    requires ValidCtx(ctx) && x.kind.VarRef?
    requires MacroInvocationOfSpan(ctx, x.span) == Ok(None)
    ensures var r := LowerExpr(ctx, x, vars);
            && (r.Ok? <==> x.kind.id in vars)
            && (r.Ok? ==> r.value.node.contents == ExprKind.VarRef(LocalIdent(vars[x.kind.id], x.kind.id)))
  {
    assert UnrollScope(x) == x;
    ExprFromContents(ctx, x, vars);
    NoMacroContents(ctx, x, vars);
    VarRefLookup(ctx, x.kind, vars);
    var k := LowerExprKind(ctx, x.kind, vars);
    assert LowerContents(ctx, x, vars).Ok? <==> k.Ok?;
    assert LowerContents(ctx, x, vars).Ok? ==> LowerContents(ctx, x, vars).value.node.kind == k.value.node;
  }

  /** A `let` statement without an `else` block whose pattern is a plain
      binding leaves that binding's name recorded, unless its initializer
      rebinds the variable. */
  lemma LetBinds(ctx: Ctx, s: HostStmt, vars: Vars)
    requires ValidCtx(ctx)
    requires s.LetStmt? && s.elseBlock.None? && s.pattern.kind.Binding?
    requires s.pattern.kind.localVar !in OptPatBinders(s.pattern.kind.subpattern)
    requires s.pattern.kind.localVar !in OptExprBinders(s.initializer)
    requires LowerStmt(ctx, s, vars).Ok?
    ensures var v := s.pattern.kind.localVar;
            v in LowerStmt(ctx, s, vars).value.vars && LowerStmt(ctx, s, vars).value.vars[v] == s.pattern.kind.name
  {
    var lp := LowerPat(ctx, s.pattern, vars).value;
    BindingRecordsName(ctx, s.pattern, vars);
    var li := LowerOptExpr(ctx, s.initializer, lp.vars).value;
    assert Extends(lp.vars, li.vars, OptExprBinders(s.initializer));
    assert LowerOptBlock(ctx, s.elseBlock, li.vars).value.vars == li.vars;
  }

  /** `{ let x = init; x }` without a folded call at the tail evaluates its
      tail reference to the name the `let` pattern bound. */
  lemma LetThenUse(ctx: Ctx, b: HostBlock, vars: Vars)
    requires ValidCtx(ctx)
    requires |b.stmts| == 1 && b.stmts[0].LetStmt? && b.stmts[0].elseBlock.None?
    requires b.stmts[0].pattern.kind.Binding? && b.stmts[0].pattern.kind.subpattern.None?
    requires b.expr.Some? && b.expr.value.kind.VarRef?
    requires b.expr.value.kind.id == b.stmts[0].pattern.kind.localVar
    requires b.stmts[0].pattern.kind.localVar !in OptExprBinders(b.stmts[0].initializer)
    requires MacroInvocationOfSpan(ctx, b.expr.value.span) == Ok(None)
    requires LowerBlock(ctx, b, vars).Ok?
    ensures var tail := LowerBlock(ctx, b, vars).value.node.expr.value;
            tail.contents == ExprKind.VarRef(LocalIdent(b.stmts[0].pattern.kind.name, b.stmts[0].pattern.kind.localVar))
  {
    var s := b.stmts[0];
    var st := LowerStmt(ctx, s, vars).value;
    LetBinds(ctx, s, vars);
    assert b.stmts[1..] == [];
    BlockTail(ctx, b, vars);
    var ls := LowerStmts(ctx, b.stmts, vars).value;
    assert ls.vars == st.vars;
    VarRefExpr(ctx, b.expr.value, ls.vars);
  }

  /** The tail of a translated block is its tail expression translated
      after all of the block's statements. */
  lemma BlockTail(ctx: Ctx, b: HostBlock, vars: Vars)
    requires ValidCtx(ctx) && b.expr.Some?
    requires LowerBlock(ctx, b, vars).Ok?
    ensures LowerStmts(ctx, b.stmts, vars).Ok?
    ensures var after := LowerStmts(ctx, b.stmts, vars).value.vars;
            && LowerExpr(ctx, b.expr.value, after).Ok?
            && LowerBlock(ctx, b, vars).value.node.expr == Some(LowerExpr(ctx, b.expr.value, after).value.node)
  {
  }

  /** A `Leaf` pattern on an ADT is the pattern on its first variant
      (copied.rs:1006-1015). */
  lemma LeafOnAdtIsVariantZero(ctx: Ctx, ty: HostTy, span: HostSpan, fps: seq<HostFieldPat>, vars: Vars)
    requires ty.AdtTy?
    ensures LowerPat(ctx, HostPat(ty, span, Leaf(fps)), vars) == LowerPat(ctx, HostPat(ty, span, HostPatKind.Variant(ty.adt, 0, fps)), vars)
  {
    var leaf := HostPat(ty, span, Leaf(fps));
    var variant := HostPat(ty, span, HostPatKind.Variant(ty.adt, 0, fps));
    assert LowerPatContents(ctx, leaf, vars) == LowerVariantPat(ctx, ty.adt, 0, fps, vars);
    assert LowerPatContents(ctx, variant, vars) == LowerPatKind(ctx, variant.kind, vars);
  }

  /** The sub-patterns of a list of field patterns. */
  function Patterns(fps: seq<HostFieldPat>): (ps: seq<HostPat>)
    ensures |ps| == |fps| && forall i :: 0 <= i < |fps| ==> ps[i] == fps[i].pattern
  {
    seq(|fps|, i requires 0 <= i < |fps| => fps[i].pattern)
  }

  /** A `Leaf` pattern on a tuple is the tuple of its sub-patterns in order,
      their field indices dropped (copied.rs:1016-1022), and a `Leaf` on any
      other type is fatal. */
  lemma LeafOnTupleIsTuple(ctx: Ctx, ty: HostTy, span: HostSpan, fps: seq<HostFieldPat>, vars: Vars)
    ensures ty.TupleTy? ==>
              var r := LowerPat(ctx, HostPat(ty, span, Leaf(fps)), vars);
              var ps := LowerPats(ctx, Patterns(fps), vars);
              (r.Ok? <==> ps.Ok?) && (r.Ok? ==> r.value.node.contents == TuplePat(ps.value.node))
    ensures !ty.AdtTy? && !ty.TupleTy? ==> LowerPat(ctx, HostPat(ty, span, Leaf(fps)), vars).Err?
  {
    LeafTupleIsPats(ctx, fps, vars);
  }

  lemma {:induction false} LeafTupleIsPats(ctx: Ctx, fps: seq<HostFieldPat>, vars: Vars)
    ensures LowerLeafTuple(ctx, fps, vars) == LowerPats(ctx, Patterns(fps), vars)
    decreases |fps|
  {
    if |fps| > 0 {
      assert Patterns(fps)[0] == fps[0].pattern;
      assert Patterns(fps)[1..] == Patterns(fps[1..]);
      var head := LowerPat(ctx, fps[0].pattern, vars);
      if head.Ok? {
        LeafTupleIsPats(ctx, fps[1..], head.value.vars);
      }
    }
  }

  /** Translated patterns never carry a HIR node or attributes, whatever
      their kind (copied.rs:1035-1041). */
  lemma PatternsAreBare(ctx: Ctx, ps: seq<HostPat>, vars: Vars)
    requires LowerPats(ctx, ps, vars).Ok?
    ensures forall i :: 0 <= i < |ps| ==>
              LowerPats(ctx, ps, vars).value.node[i].hirId.None? && LowerPats(ctx, ps, vars).value.node[i].attributes == []
    decreases |ps|
  {
    if |ps| > 0 {
      var head := LowerPat(ctx, ps[0], vars).value;
      PatternsAreBare(ctx, ps[1..], head.vars);
    }
  }

  /** Scopes are transparent: wrapping an expression in a scope changes only
      its HIR node and attributes, which come from the scope, and, for a
      function item, the span the global name is placed at. */
  lemma ScopeTransparent(ctx: Ctx, e: HostExpr, vars: Vars)
    requires ValidCtx(ctx) && e.kind.Scope?
    ensures var inner := e.kind.value;
            var r := LowerExpr(ctx, e, vars);
            var ri := LowerExpr(ctx, inner, vars);
            && (r.Ok? <==> ri.Ok?)
            && (r.Ok? ==> && r.value.node.contents == ri.value.node.contents
                          && r.value.node.ty == ri.value.node.ty
                          && r.value.vars == ri.value.vars
                          && r.value.node.hirId == ctx.scopeAttributes(e.kind.region).0
                          && r.value.node.attributes == LowerAttributes(ctx, ctx.scopeAttributes(e.kind.region).1))
            && (r.Ok? && !(UnrollScope(e).kind.ZstLiteral? && UnrollScope(e).ty.FnDefTy?) ==>
                  r.value.node.span == ri.value.node.span)
  {
    ContentsThroughScope(ctx, e, vars);
    ExprFromContents(ctx, e, vars);
    ExprFromContents(ctx, e.kind.value, vars);
    assert HirIdAndAttributes(ctx, e) == ctx.scopeAttributes(e.kind.region);
  }

  /** `LowerContents` looks through scopes: the contents and the bound
      variables are those of the scope's body, and so is the placement
      except for a function item, which is placed at the outer span. */
  lemma ContentsThroughScope(ctx: Ctx, e: HostExpr, vars: Vars)
    requires ValidCtx(ctx) && e.kind.Scope?
    ensures var c := LowerContents(ctx, e, vars);
            var ci := LowerContents(ctx, e.kind.value, vars);
            && (c.Ok? <==> ci.Ok?)
            && (c.Ok? ==> c.value.node.kind == ci.value.node.kind && c.value.vars == ci.value.vars)
            && (c.Ok? && !(UnrollScope(e).kind.ZstLiteral? && UnrollScope(e).ty.FnDefTy?) ==> c == ci)
  {
    var u := UnrollScope(e);
    var inner := e.kind.value;
    assert UnrollScope(inner) == u;
    match MacroInvocationOfSpan(ctx, u.span)
    case Err(_) =>
    case Ok(Some(_)) =>
    case Ok(None) =>
      NoMacroContents(ctx, e, vars);
      NoMacroContents(ctx, inner, vars);
      if !(u.kind.ZstLiteral? && u.ty.FnDefTy?) {
        assert LowerUnfolded(ctx, e, vars) == LowerUnfolded(ctx, inner, vars);
      }
  }

  /** The exporter's state during a translation: the local-variable table
      and the set of exported spans, both only ever extended. */
  datatype State = State(vars: Vars, exported: set<HostSpan>)

  /** Translating an expression as a step on the state. */
  function LowerExprIn(ctx: Ctx, e: HostExpr, st: State): (r: Result<(Expr, State), Fatal>)
    requires ValidCtx(ctx)
    ensures r.Ok? ==> st.exported <= r.value.1.exported
    ensures r.Ok? ==> ExprSpans(r.value.0) <= Image(ctx, r.value.1.exported)
    ensures r.Ok? ==> Extends(st.vars, r.value.1.vars, ExprBinders(e))
  {
    var l :- LowerExpr(ctx, e, st.vars);
    Ok((l.node, State(l.vars, st.exported + l.spans)))
  }

  /** Translating expressions one after another: every span in either
      result is exported in the final state, the table is extended by the
      two expressions' binders only, and a name recorded by the first step
      survives the second unless the second expression binds it again. */
  lemma SequencedLowering(ctx: Ctx, e1: HostExpr, e2: HostExpr, st: State)
    requires ValidCtx(ctx)
    requires LowerExprIn(ctx, e1, st).Ok?
    requires LowerExprIn(ctx, e2, LowerExprIn(ctx, e1, st).value.1).Ok?
    ensures var (x1, s1) := LowerExprIn(ctx, e1, st).value;
            var (x2, s2) := LowerExprIn(ctx, e2, s1).value;
            && ExprSpans(x1) + ExprSpans(x2) <= Image(ctx, s2.exported)
            && Extends(st.vars, s2.vars, ExprBinders(e1) + ExprBinders(e2))
            && (forall x :: x in s1.vars && x !in ExprBinders(e2) ==> x in s2.vars && s2.vars[x] == s1.vars[x])
  {
    var (x1, s1) := LowerExprIn(ctx, e1, st).value;
    var (x2, s2) := LowerExprIn(ctx, e2, s1).value;
    assert Image(ctx, s1.exported) <= Image(ctx, s2.exported);
  }
}

/** Macro folding (frontend/exporter/src/rustc_utils.rs:188-309): finding,
    in the expansion backtrace of a span, the innermost invocation of an
    allowlisted macro at a registered call site; turning it into a
    `MacroInvokation` carrying the call's raw argument text; and, at module
    level, collapsing each run of items produced by one such call into a
    single item. */
module Macros {

  import opened Wrappers
  import opened Identifiers
  import opened Spans
  import opened FrontendOptions
  import opened Portable
  import opened Host
  import opened Items

  /** Whether some allowlist pattern matches the path (`iter().any`). */
  function AnyPatternMatches(ctx: Ctx, patterns: seq<Namespace>, path: Path): (b: bool)
    ensures b <==> exists i :: 0 <= i < |patterns| && ctx.matches(patterns[i], path)
  {
    if |patterns| == 0 then false
    else ctx.matches(patterns[0], path) || AnyPatternMatches(ctx, patterns[1..], path)
  }

  /** A backtrace entry qualifies for folding when it is a macro expansion
      with a known macro definition, whose call site is a registered macro
      call and whose macro path matches the allowlist. */
  predicate Eligible(ctx: Ctx, x: HostExpnData) {
    && x.kind.Macro?
    && x.macroDefId.Some?
    && ctx.translate(x.callSite) in ctx.macroCalls
    && AnyPatternMatches(ctx, ctx.options.inlineMacroCalls, PathOf(x.macroDefId.value))
  }

  /** A qualifying backtrace entry together with its macro's identifier. */
  datatype RawMacro = RawMacro(macroIdent: DefId, expn: HostExpnData)

  /** `find_map` over the backtrace: the first qualifying entry. */
  function FindMacro(ctx: Ctx, bt: seq<HostExpnData>): (r: Option<RawMacro>)
    ensures r.None? <==> forall i :: 0 <= i < |bt| ==> !Eligible(ctx, bt[i])
    ensures r.Some? ==> exists i :: 0 <= i < |bt| && bt[i] == r.value.expn && Eligible(ctx, bt[i])
                                    && forall j :: 0 <= j < i ==> !Eligible(ctx, bt[j])
    ensures r.Some? ==> Eligible(ctx, r.value.expn) && r.value.macroIdent == r.value.expn.macroDefId.value
  {
    if |bt| == 0 then None
    else if Eligible(ctx, bt[0]) then Some(RawMacro(bt[0].macroDefId.value, bt[0]))
    else
      var r := FindMacro(ctx, bt[1..]);
      assert forall i :: 1 <= i < |bt| ==> bt[i] == bt[1..][i - 1];
      if r.Some? then
        var k :| 0 <= k < |bt[1..]| && bt[1..][k] == r.value.expn && Eligible(ctx, bt[1..][k])
                 && forall j :: 0 <= j < k ==> !Eligible(ctx, bt[1..][j]);
        assert bt[k + 1] == r.value.expn;
        r
      else r
  }

  /** `raw_macro_invocation_of_span`. */
  function RawMacroInvocationOfSpan(ctx: Ctx, span: HostSpan): Option<RawMacro> {
    FindMacro(ctx, ctx.backtrace(span))
  }

  /** A folded macro call and the host call site it exported. */
  datatype FoldedCall = FoldedCall(call: MacroInvokation, callSite: HostSpan)

  /** `macro_invocation_of_raw_mac_invocation`: look up the argument span
      registered for the call site (fatal when absent) and read its text
      (fatal on any read error). */
  function MacroInvocationOfRaw(ctx: Ctx, raw: RawMacro): (r: Result<FoldedCall, Fatal>)
    requires ValidCtx(ctx)
    ensures var key := ctx.translate(raw.expn.callSite);
            r.Ok? <==> key in ctx.macroCalls && ReadSpanFromFile(ctx.macroCalls[key], ctx.files).Ok?
    ensures var key := ctx.translate(raw.expn.callSite);
            r.Ok? ==> r.value.call == MacroInvokation.MacroInvokation(raw.macroIdent, ReadSpanFromFile(ctx.macroCalls[key], ctx.files).value, key)
                      && r.value.callSite == raw.expn.callSite
  {
    var key := ctx.translate(raw.expn.callSite);
    if key !in ctx.macroCalls then Err(Fatal("no registered macro call at this call site"))
    else
      match ReadSpanFromFile(ctx.macroCalls[key], ctx.files)
      case Err(_) => Err(Fatal("could not read the macro argument"))
      case Ok(text) => Ok(FoldedCall(MacroInvokation.MacroInvokation(raw.macroIdent, text, key), raw.expn.callSite))
  }

  /** `macro_invocation_of_span`: nothing when no entry qualifies. */
  function MacroInvocationOfSpan(ctx: Ctx, span: HostSpan): (r: Result<Option<FoldedCall>, Fatal>)
    requires ValidCtx(ctx)
    ensures r == Ok(None) <==> RawMacroInvocationOfSpan(ctx, span).None?
    ensures r.Ok? && r.value.Some? ==> r.value.value.call.macroIdent == RawMacroInvocationOfSpan(ctx, span).value.macroIdent
  {
    match RawMacroInvocationOfSpan(ctx, span)
    case None => Ok(None)
    case Some(raw) =>
      var folded :- MacroInvocationOfRaw(ctx, raw);
      Ok(Some(folded))
  }

  /** The call-site lookup of a qualifying entry cannot fail, because
      qualifying requires the call site to be registered: the only way
      folding a span aborts is a failed read of the argument text. */
  lemma MacroInvocationFailsOnlyOnRead(ctx: Ctx, span: HostSpan)
    requires ValidCtx(ctx)
    ensures MacroInvocationOfSpan(ctx, span).Err? <==>
              && RawMacroInvocationOfSpan(ctx, span).Some?
              && var key := ctx.translate(RawMacroInvocationOfSpan(ctx, span).value.expn.callSite);
                 ReadSpanFromFile(ctx.macroCalls[key], ctx.files).Err?
  {
  }

  /** The folded call's macro is the innermost qualifying macro of the
      backtrace and its argument is the text of the registered argument span. */
  lemma MacroInvocationIsInnermost(ctx: Ctx, span: HostSpan)
    requires ValidCtx(ctx)
    requires MacroInvocationOfSpan(ctx, span).Ok? && MacroInvocationOfSpan(ctx, span).value.Some?
    ensures var bt := ctx.backtrace(span);
            var call := MacroInvocationOfSpan(ctx, span).value.value.call;
            exists i :: 0 <= i < |bt| && Eligible(ctx, bt[i]) && (forall j :: 0 <= j < i ==> !Eligible(ctx, bt[j]))
                        && bt[i].macroDefId == Some(call.macroIdent)
                        && call.span == ctx.translate(bt[i].callSite)
                        && Some(call.argument) == ReadOk(ctx, ctx.macroCalls[call.span])
  {
  }

  function ReadOk(ctx: Ctx, span: Span): Option<string>
    requires ReadableSpan(span, ctx.files)
  {
    match ReadSpanFromFile(span, ctx.files)
    case Ok(text) => Some(text)
    case Err(_) => None
  }

  // Grouping consecutive elements with equal keys (itertools `group_by`).

  function Flatten<T>(runs: seq<seq<T>>): seq<T> {
    if |runs| == 0 then [] else runs[0] + Flatten(runs[1..])
  }

  /** `runs` splits `xs` into maximal runs of consecutive elements with
      equal keys: the runs concatenate back to `xs`, are non-empty, share
      one key each, and adjacent runs have different keys. */
  ghost predicate IsGrouping<T, K>(xs: seq<T>, key: T -> K, runs: seq<seq<T>>) {
    && Flatten(runs) == xs
    && |runs| <= |xs|
    && (forall i :: 0 <= i < |runs| ==> |runs[i]| > 0)
    && (forall i, j :: 0 <= i < |runs| && 0 <= j < |runs[i]| ==> key(runs[i][j]) == key(runs[i][0]))
    && (forall i :: 0 < i < |runs| ==> key(runs[i - 1][0]) != key(runs[i][0]))
  }

  /** `group_by(SpanEq)`: the runs of consecutive elements with equal keys. */
  function GroupBy<T, K(==)>(xs: seq<T>, key: T -> K): (runs: seq<seq<T>>)
    ensures IsGrouping(xs, key, runs)
  {
    if |xs| == 0 then []
    else
      var rest := GroupBy(xs[1..], key);
      if |rest| > 0 && key(rest[0][0]) == key(xs[0]) then
        GroupingExtendsRun(xs, key, rest);
        [[xs[0]] + rest[0]] + rest[1..]
      else
        GroupingStartsRun(xs, key, rest);
        [[xs[0]]] + rest
  }

  /** An element with the key of the first run joins that run. */
  lemma GroupingExtendsRun<T, K>(xs: seq<T>, key: T -> K, rest: seq<seq<T>>)
    requires |xs| > 0 && IsGrouping(xs[1..], key, rest)
    requires |rest| > 0 && key(rest[0][0]) == key(xs[0])
    ensures IsGrouping(xs, key, [[xs[0]] + rest[0]] + rest[1..])
  {
    var runs := [[xs[0]] + rest[0]] + rest[1..];
    assert rest == [rest[0]] + rest[1..];
    assert Flatten(rest) == rest[0] + Flatten(rest[1..]);
    assert runs[1..] == rest[1..];
    assert Flatten(runs) == [xs[0]] + rest[0] + Flatten(rest[1..]);
    assert xs == [xs[0]] + xs[1..];
    assert forall i :: 1 <= i < |runs| ==> runs[i] == rest[i];
  }

  /** An element with another key than the first run starts a run. */
  lemma GroupingStartsRun<T, K>(xs: seq<T>, key: T -> K, rest: seq<seq<T>>)
    requires |xs| > 0 && IsGrouping(xs[1..], key, rest)
    requires !(|rest| > 0 && key(rest[0][0]) == key(xs[0]))
    ensures IsGrouping(xs, key, [[xs[0]]] + rest)
  {
    var runs := [[xs[0]]] + rest;
    assert runs[1..] == rest;
    assert Flatten(runs) == [xs[0]] + Flatten(rest);
    assert xs == [xs[0]] + xs[1..];
    assert forall i :: 1 <= i < |runs| ==> runs[i] == rest[i - 1];
  }

  /** The grouping key of an item: the call site of its qualifying macro
      entry, if any (`SpanEq`). */
  function CallSiteKey(ctx: Ctx, item: HostItem): Option<HostSpan> {
    match RawMacroInvocationOfSpan(ctx, item.span)
    case None => None
    case Some(raw) => Some(raw.expn.callSite)
  }

  /** One run of items: a run produced by a foldable macro call becomes a
      single `MacroInvokation` item owned by the run's first item, carrying
      the text of the argument registered for the call site (fatal when it
      cannot be read; see `FoldedRun`); any other run is translated item by
      item. */
  function LowerRun(ctx: Ctx, run: seq<HostItem>): (r: Result<(seq<Item>, set<HostSpan>), Fatal>)
    requires ValidCtx(ctx) && |run| > 0
    ensures r.Ok? ==> |r.value.0| <= |run|
    ensures RawMacroInvocationOfSpan(ctx, run[0].span).None? ==> r == Ok(LowerItems(ctx, run))
    ensures RawMacroInvocationOfSpan(ctx, run[0].span).Some? && r.Ok? ==>
              && |r.value.0| == 1
              && var item := r.value.0[0];
                 && item.defId.None? && item.ownerId == run[0].ownerId
                 && item.kind.MacroInvokationItem?
                 && item.span == item.kind.call.span
                 && item.attributes == [] && item.expnBacktrace == []
  {
    match RawMacroInvocationOfSpan(ctx, run[0].span)
    case None => Ok(LowerItems(ctx, run))
    case Some(raw) =>
      var folded :- MacroInvocationOfRaw(ctx, raw);
      var item := Item(
        defId := None,
        ownerId := run[0].ownerId,
        span := ctx.translate(raw.expn.callSite),
        visSpan := ctx.translate(ctx.dummySpan),
        kind := MacroInvokationItem(folded.call),
        attributes := [],
        expnBacktrace := []);
      Ok(([item], {folded.callSite, raw.expn.callSite, ctx.dummySpan}))
  }

  /** The items each run translates to, in the order of the runs. */
  function RunItems(ctx: Ctx, runs: seq<seq<HostItem>>): (out: seq<seq<Item>>)
    requires ValidCtx(ctx)
    requires forall i :: 0 <= i < |runs| ==> |runs[i]| > 0 && LowerRun(ctx, runs[i]).Ok?
    ensures |out| == |runs|
    ensures forall i :: 0 <= i < |runs| ==> out[i] == LowerRun(ctx, runs[i]).value.0
  {
    if |runs| == 0 then [] else [LowerRun(ctx, runs[0]).value.0] + RunItems(ctx, runs[1..])
  }

  /** The runs in order: fatal exactly when some run is, and otherwise the
      concatenation of what each run translates to. */
  function LowerRuns(ctx: Ctx, runs: seq<seq<HostItem>>): (r: Result<(seq<Item>, set<HostSpan>), Fatal>)
    requires ValidCtx(ctx)
    requires forall i :: 0 <= i < |runs| ==> |runs[i]| > 0
    ensures r.Ok? <==> forall i :: 0 <= i < |runs| ==> LowerRun(ctx, runs[i]).Ok?
    ensures r.Ok? ==> r.value.0 == Flatten(RunItems(ctx, runs))
    ensures r.Ok? ==> |r.value.0| <= |Flatten(runs)|
  {
    if |runs| == 0 then Ok(([], {}))
    else
      var head :- LowerRun(ctx, runs[0]);
      var rest :- LowerRuns(ctx, runs[1..]);
      assert forall i :: 1 <= i < |runs| ==> runs[i] == runs[1..][i - 1];
      assert RunItems(ctx, runs)[1..] == RunItems(ctx, runs[1..]);
      assert Flatten(runs) == runs[0] + Flatten(runs[1..]);
      Ok((head.0 + rest.0, head.1 + rest.1))
  }

  /** The runs of a module's items that share the call site of their
      foldable macro call (`group_by(SpanEq)`). */
  function CallSiteRuns(ctx: Ctx, items: seq<HostItem>): (runs: seq<seq<HostItem>>)
    ensures IsGrouping(items, item => CallSiteKey(ctx, item), runs)
  {
    GroupBy(items, item => CallSiteKey(ctx, item))
  }

  /** `inline_macro_invocations`: the items of a module, with every run of
      items produced by one foldable macro call collapsed into one item. */
  function InlineMacroInvocations(ctx: Ctx, items: seq<HostItem>): (r: Result<(seq<Item>, set<HostSpan>), Fatal>)
    requires ValidCtx(ctx)
    ensures var runs := CallSiteRuns(ctx, items);
            && (r.Ok? <==> forall i :: 0 <= i < |runs| ==> LowerRun(ctx, runs[i]).Ok?)
            && (r.Ok? ==> r.value.0 == Flatten(RunItems(ctx, runs)))
    ensures r.Ok? ==> |r.value.0| <= |items|
  {
    LowerRuns(ctx, CallSiteRuns(ctx, items))
  }

  /** Without any foldable macro call, the module's items are translated
      one by one, in order. */
  lemma {:induction false} NoMacroIsItemwise(ctx: Ctx, items: seq<HostItem>)
    requires ValidCtx(ctx)
    requires forall i :: 0 <= i < |items| ==> RawMacroInvocationOfSpan(ctx, items[i].span).None?
    ensures InlineMacroInvocations(ctx, items).Ok?
    ensures InlineMacroInvocations(ctx, items).value.0 == LowerItems(ctx, items).0
  {
    var key := item => CallSiteKey(ctx, item);
    var runs := GroupBy(items, key);
    NoMacroRuns(ctx, runs);
  }

  lemma {:induction false} NoMacroRuns(ctx: Ctx, runs: seq<seq<HostItem>>)
    requires ValidCtx(ctx)
    requires forall i :: 0 <= i < |runs| ==> |runs[i]| > 0
    requires forall i :: 0 <= i < |Flatten(runs)| ==> RawMacroInvocationOfSpan(ctx, Flatten(runs)[i].span).None?
    ensures LowerRuns(ctx, runs).Ok?
    ensures LowerRuns(ctx, runs).value.0 == LowerItems(ctx, Flatten(runs)).0
  {
    if |runs| > 0 {
      var flat := Flatten(runs);
      assert flat == runs[0] + Flatten(runs[1..]);
      assert flat[0] == runs[0][0];
      forall i | 0 <= i < |Flatten(runs[1..])|
        ensures RawMacroInvocationOfSpan(ctx, Flatten(runs[1..])[i].span).None?
      {
        assert Flatten(runs[1..])[i] == flat[|runs[0]| + i];
      }
      NoMacroRuns(ctx, runs[1..]);
      LowerItemsAppend(ctx, runs[0], Flatten(runs[1..]));
    }
  }

  lemma {:induction false} LowerItemsAppend(ctx: Ctx, a: seq<HostItem>, b: seq<HostItem>)
    ensures LowerItems(ctx, a + b).0 == LowerItems(ctx, a).0 + LowerItems(ctx, b).0
    decreases |a|
  {
    if |a| == 0 {
      assert a + b == b;
    } else {
      var x, xs := a[0], a[1..];
      assert a + b == [x] + (xs + b);
      assert a == [x] + xs;
      LowerItemsAppend(ctx, xs, b);
      var h := [LowerItem(ctx, x)];
      calc {
        LowerItems(ctx, a + b).0;
        LowerItems(ctx, [x] + (xs + b)).0;
        { LowerItemsCons(ctx, x, xs + b); }
        h + LowerItems(ctx, xs + b).0;
        h + (LowerItems(ctx, xs).0 + LowerItems(ctx, b).0);
        (h + LowerItems(ctx, xs).0) + LowerItems(ctx, b).0;
        { LowerItemsCons(ctx, x, xs); }
        LowerItems(ctx, [x] + xs).0 + LowerItems(ctx, b).0;
        LowerItems(ctx, a).0 + LowerItems(ctx, b).0;
      }
    }
  }

  lemma LowerItemsCons(ctx: Ctx, x: HostItem, xs: seq<HostItem>)
    ensures LowerItems(ctx, [x] + xs).0 == [LowerItem(ctx, x)] + LowerItems(ctx, xs).0
  {
    assert ([x] + xs)[1..] == xs;
  }

  /** Elements that all share one key form a single run. */
  lemma {:induction false} OneKeyOneRun<T, K>(xs: seq<T>, key: T -> K, k: K)
    requires |xs| > 0
    requires forall i :: 0 <= i < |xs| ==> key(xs[i]) == k
    ensures GroupBy(xs, key) == [xs]
    decreases |xs|
  {
    if |xs| > 1 {
      OneKeyOneRun(xs[1..], key, k);
      var rest := GroupBy(xs[1..], key);
      assert rest[0][0] == xs[1];
      assert [xs[0]] + xs[1..] == xs;
    } else {
      assert GroupBy(xs[1..], key) == [];
      assert [xs[0]] == xs;
    }
  }

  /** Items all produced by one foldable macro call, at one call site,
      collapse into a single `MacroInvokation` item owned by the first of
      them, whose argument is the text of the registered argument span. */
  lemma OneCallCollapses(ctx: Ctx, items: seq<HostItem>, site: HostSpan)
    requires ValidCtx(ctx)
    requires |items| > 0
    requires forall i :: 0 <= i < |items| ==> CallSiteKey(ctx, items[i]) == Some(site)
    requires InlineMacroInvocations(ctx, items).Ok?
    ensures var out := InlineMacroInvocations(ctx, items).value.0;
            && |out| == 1
            && out[0].defId.None? && out[0].ownerId == items[0].ownerId
            && out[0].kind.MacroInvokationItem?
            && out[0].kind.call.span == ctx.translate(site)
            && ctx.translate(site) in ctx.macroCalls
            && Some(out[0].kind.call.argument) == ReadOk(ctx, ctx.macroCalls[ctx.translate(site)])
            && out[0].attributes == [] && out[0].expnBacktrace == []
  {
    var key := item => CallSiteKey(ctx, item);
    OneKeyOneRun(items, key, Some(site));
    var runs := GroupBy(items, key);
    assert runs[1..] == [];
  }

  /** The number of items a grouping translates to: one per item outside
      any foldable call and one per folded run. */
  function FoldedCount(ctx: Ctx, runs: seq<seq<HostItem>>): nat
    requires forall i :: 0 <= i < |runs| ==> |runs[i]| > 0
  {
    if |runs| == 0 then 0
    else (if CallSiteKey(ctx, runs[0][0]).None? then |runs[0]| else 1) + FoldedCount(ctx, runs[1..])
  }

  /** Translating the runs keeps every item outside a foldable call and
      replaces each folded run by exactly one item. */
  lemma {:induction false} LowerRunsCount(ctx: Ctx, runs: seq<seq<HostItem>>)
    requires ValidCtx(ctx)
    requires forall i :: 0 <= i < |runs| ==> |runs[i]| > 0
    requires LowerRuns(ctx, runs).Ok?
    ensures |LowerRuns(ctx, runs).value.0| == FoldedCount(ctx, runs)
  {
    if |runs| > 0 {
      LowerRunsCount(ctx, runs[1..]);
    }
  }

  /** A plain item, two items produced by one foldable call, and another
      plain item: the module becomes the first item, one `MacroInvokation`
      item at the call site owned by the first produced item, and the last
      item, in that order. */
  lemma MixedModule(ctx: Ctx, a: HostItem, b1: HostItem, b2: HostItem, c: HostItem, site: HostSpan)
    requires ValidCtx(ctx)
    requires CallSiteKey(ctx, a).None? && CallSiteKey(ctx, c).None?
    requires CallSiteKey(ctx, b1) == Some(site) && CallSiteKey(ctx, b2) == Some(site)
    requires InlineMacroInvocations(ctx, [a, b1, b2, c]).Ok?
    ensures var out := InlineMacroInvocations(ctx, [a, b1, b2, c]).value.0;
            && |out| == 3
            && out[0] == LowerItem(ctx, a) && out[2] == LowerItem(ctx, c)
            && out[1].defId.None? && out[1].ownerId == b1.ownerId
            && out[1].kind.MacroInvokationItem?
            && out[1].span == out[1].kind.call.span == ctx.translate(site)
  {
    CallSiteThreeRuns(ctx, a, b1, b2, c);
    MixedRuns(ctx, a, b1, b2, c);
    FoldedRun(ctx, [b1, b2], site);
  }

  lemma CallSiteThreeRuns(ctx: Ctx, a: HostItem, b1: HostItem, b2: HostItem, c: HostItem)
    requires CallSiteKey(ctx, a) != CallSiteKey(ctx, b1) && CallSiteKey(ctx, b1) == CallSiteKey(ctx, b2)
    requires CallSiteKey(ctx, b2) != CallSiteKey(ctx, c)
    ensures CallSiteRuns(ctx, [a, b1, b2, c]) == [[a], [b1, b2], [c]]
  {
    ThreeRuns(a, b1, b2, c, item => CallSiteKey(ctx, item));
  }

  /** The translations of a plain item, a folded run and a plain item, in order. */
  lemma MixedRuns(ctx: Ctx, a: HostItem, b1: HostItem, b2: HostItem, c: HostItem)
    requires ValidCtx(ctx)
    requires CallSiteKey(ctx, a).None? && CallSiteKey(ctx, c).None? && CallSiteKey(ctx, b1).Some?
    requires LowerRuns(ctx, [[a], [b1, b2], [c]]).Ok?
    ensures LowerRun(ctx, [b1, b2]).Ok? && |LowerRun(ctx, [b1, b2]).value.0| == 1
    ensures LowerRuns(ctx, [[a], [b1, b2], [c]]).value.0 ==
              [LowerItem(ctx, a), LowerRun(ctx, [b1, b2]).value.0[0], LowerItem(ctx, c)]
  {
    var runs := [[a], [b1, b2], [c]];
    LowerThreeRuns(ctx, runs);
    PlainRun(ctx, a);
    PlainRun(ctx, c);
    var middle := LowerRun(ctx, [b1, b2]).value.0;
    AroundSingleton(LowerItem(ctx, a), middle, LowerItem(ctx, c));
  }

  lemma AroundSingleton<T>(x: T, m: seq<T>, z: T)
    requires |m| == 1
    ensures [x] + m + [z] == [x, m[0], z]
  {
  }

  /** A run whose first item comes from a foldable call at `site` is fatal
      exactly when the argument registered for the call site cannot be
      read, and otherwise becomes one `MacroInvokation` item of that macro
      at the call site, carrying the argument's text. */
  lemma FoldedRun(ctx: Ctx, run: seq<HostItem>, site: HostSpan)
    requires ValidCtx(ctx) && |run| > 0 && CallSiteKey(ctx, run[0]) == Some(site)
    ensures var raw := RawMacroInvocationOfSpan(ctx, run[0].span).value;
            var key := ctx.translate(site);
            && key in ctx.macroCalls
            && (LowerRun(ctx, run).Ok? <==> ReadOk(ctx, ctx.macroCalls[key]).Some?)
            && (LowerRun(ctx, run).Ok? ==>
                  var out := LowerRun(ctx, run).value.0;
                  && |out| == 1
                  && out[0].defId.None? && out[0].ownerId == run[0].ownerId
                  && out[0].kind.MacroInvokationItem?
                  && out[0].kind.call.macroIdent == raw.macroIdent
                  && Some(out[0].kind.call.argument) == ReadOk(ctx, ctx.macroCalls[key])
                  && out[0].span == out[0].kind.call.span == key
                  && out[0].attributes == [] && out[0].expnBacktrace == [])
  {
  }

  /** A lone item outside any foldable call is translated on its own. */
  lemma PlainRun(ctx: Ctx, x: HostItem)
    requires ValidCtx(ctx) && CallSiteKey(ctx, x).None?
    ensures LowerRun(ctx, [x]).Ok? && LowerRun(ctx, [x]).value.0 == [LowerItem(ctx, x)]
  {
  }

  /** Three runs translate to the concatenation of their translations. */
  lemma LowerThreeRuns(ctx: Ctx, runs: seq<seq<HostItem>>)
    requires ValidCtx(ctx)
    requires |runs| == 3 && forall i :: 0 <= i < 3 ==> |runs[i]| > 0
    requires LowerRuns(ctx, runs).Ok?
    ensures LowerRuns(ctx, runs).value.0 ==
              LowerRun(ctx, runs[0]).value.0 + LowerRun(ctx, runs[1]).value.0 + LowerRun(ctx, runs[2]).value.0
  {
    FlattenThree(RunItems(ctx, runs));
  }

  lemma FlattenThree<T>(parts: seq<seq<T>>)
    requires |parts| == 3
    ensures Flatten(parts) == parts[0] + parts[1] + parts[2]
  {
    assert parts[1..][0] == parts[1] && parts[1..][1..][0] == parts[2];
    assert parts[1..][1..][1..] == [];
    assert Flatten(parts[1..][1..]) == parts[2];
  }

  /** `group_by` on a run of one key between two elements of other keys. */
  lemma ThreeRuns<T, K>(a: T, b1: T, b2: T, c: T, key: T -> K)
    requires key(a) != key(b1) && key(b1) == key(b2) && key(b2) != key(c)
    ensures GroupBy([a, b1, b2, c], key) == [[a], [b1, b2], [c]]
  {
    assert [a, b1, b2, c][1..] == [b1, b2, c];
    assert [b1, b2, c][1..] == [b2, c];
    assert [b2, c][1..] == [c];
    assert GroupBy([c], key) == [[c]] by { assert [c][1..] == []; }
    assert GroupBy([b2, c], key) == [[b2], [c]];
    assert GroupBy([b1, b2, c], key) == [[b1, b2], [c]] by {
      assert [b1] + [b2] == [b1, b2];
      assert [[b2], [c]][1..] == [[c]];
    }
  }
}

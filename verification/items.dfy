/** Items: the derived translation of a compiler item into the portable
    `Item` record (frontend/exporter/src/types/copied.rs:2600-2635), and the
    translation of attributes and expansion data it shares with the
    expression lowering. Each translation also returns the set of host spans
    it recorded as exported. */
module Items {

  import opened Wrappers
  import opened Identifiers
  import opened Spans
  import opened Portable
  import opened Host

  /** The host spans of a list of attributes. */
  function AttrSpans(attrs: seq<HostAttribute>): set<HostSpan> {
    set i | 0 <= i < |attrs| :: attrs[i].span
  }

  /** The derived translation of attributes: every field is copied and the
      span is translated (and exported). */
  function LowerAttributes(ctx: Ctx, attrs: seq<HostAttribute>): (r: seq<Attribute>)
    ensures |r| == |attrs|
    ensures forall i :: 0 <= i < |attrs| ==>
              r[i] == Attribute(attrs[i].kind, attrs[i].id, attrs[i].style, ctx.translate(attrs[i].span))
  {
    seq(|attrs|, i requires 0 <= i < |attrs| =>
      Attribute(attrs[i].kind, attrs[i].id, attrs[i].style, ctx.translate(attrs[i].span)))
  }

  /** The host spans exported by translating an expansion backtrace: the
      call site and the definition site of every entry. */
  function BacktraceSpans(bt: seq<HostExpnData>): set<HostSpan> {
    (set i | 0 <= i < |bt| :: bt[i].callSite) + (set i | 0 <= i < |bt| :: bt[i].defSite)
  }

  function LowerExpnData(ctx: Ctx, x: HostExpnData): ExpnData {
    ExpnData(x.kind, ctx.translate(x.callSite), ctx.translate(x.defSite), x.macroDefId)
  }

  /** The `def_id` of an item: its owner, when the owner's path ends with the
      item's own name, and nothing otherwise (an `impl` block, say). */
  function ItemDefId(name: string, owner: DefId): (r: Option<DefId>)
    ensures r.Some? ==> r.value == owner
  {
    var p := PathOf(owner);
    if p[|p| - 1] == name then Some(owner) else None
  }

  /** The last named segment of a definition path, if there is one. */
  function LastNamedSymbol(path: seq<DisambiguatedDefPathItem>): Option<Symbol> {
    if |path| == 0 then None
    else
      match SegmentName(path[|path| - 1])
      case Some(s) => Some(s)
      case None => LastNamedSymbol(path[..|path| - 1])
  }

  /** The last element of a portable path is the last named segment of the
      definition path, or the crate name when no segment is named. */
  lemma {:induction false} PathOfLast(d: DefId)
    ensures var p := PathOf(d);
            p[|p| - 1] == match LastNamedSymbol(d.path) case Some(s) => s case None => d.krate
    decreases |d.path|
  {
    if |d.path| > 0 {
      var init := d.path[..|d.path| - 1];
      var last := d.path[|d.path| - 1];
      assert d.path == init + [last];
      NamedSymbolsAppend(init, [last]);
      NamedSymbolsSingle(last);
      if !IsNamed(last) {
        PathOfLast(DefId(d.krate, init));
      }
    }
  }

  /** An item gets a `def_id` exactly when its name is the last named
      segment of its owner's path, or the crate name for a path without
      named segments. */
  lemma ItemDefIdCharacterisation(name: string, owner: DefId)
    ensures ItemDefId(name, owner).Some? <==>
              match LastNamedSymbol(owner.path) case Some(s) => s == name case None => owner.krate == name
  {
    PathOfLast(owner);
  }

  /** `fn f` inside `mod m` keeps its identifier; the `impl` block inside
      `mod m`, whose owner path ends in an unnamed segment, does not. */
  lemma ItemDefIdExamples()
    ensures ItemDefId("f", DefId("c", [DisambiguatedDefPathItem(TypeNs("m"), 0), DisambiguatedDefPathItem(ValueNs("f"), 0)]))
            == Some(DefId("c", [DisambiguatedDefPathItem(TypeNs("m"), 0), DisambiguatedDefPathItem(ValueNs("f"), 0)]))
    ensures ItemDefId("", DefId("c", [DisambiguatedDefPathItem(TypeNs("m"), 0), DisambiguatedDefPathItem(Impl, 0)])).None?
  {
    var f := DefId("c", [DisambiguatedDefPathItem(TypeNs("m"), 0), DisambiguatedDefPathItem(ValueNs("f"), 0)]);
    var i := DefId("c", [DisambiguatedDefPathItem(TypeNs("m"), 0), DisambiguatedDefPathItem(Impl, 0)]);
    ItemDefIdCharacterisation("f", f);
    ItemDefIdCharacterisation("", i);
    assert LastNamedSymbol(i.path) == LastNamedSymbol(i.path[..1]);
    assert i.path[..1][..0] == [];
  }

  /** The derived translation of one item. */
  function LowerItem(ctx: Ctx, item: HostItem): (r: Item)
    ensures r.defId == ItemDefId(item.name, item.ownerId) && r.ownerId == item.ownerId
    ensures r.span == ctx.translate(item.span) && r.visSpan == ctx.translate(item.visSpan)
    ensures r.kind == Translated(item.description)
    ensures r.attributes == LowerAttributes(ctx, ctx.itemAttributes(item.ownerId))
    ensures |r.expnBacktrace| == |ctx.backtrace(item.span)|
    ensures forall i :: 0 <= i < |r.expnBacktrace| ==>
              r.expnBacktrace[i] == LowerExpnData(ctx, ctx.backtrace(item.span)[i])
  {
    var bt := ctx.backtrace(item.span);
    Item(
      defId := ItemDefId(item.name, item.ownerId),
      ownerId := item.ownerId,
      span := ctx.translate(item.span),
      visSpan := ctx.translate(item.visSpan),
      kind := Translated(item.description),
      attributes := LowerAttributes(ctx, ctx.itemAttributes(item.ownerId)),
      expnBacktrace := seq(|bt|, i requires 0 <= i < |bt| => LowerExpnData(ctx, bt[i])))
  }

  /** The host spans translating an item exports: its span and visibility
      span, the spans of its attributes and the call and definition sites of
      its macro backtrace. */
  function ItemSpans(ctx: Ctx, item: HostItem): set<HostSpan> {
    {item.span, item.visSpan} + AttrSpans(ctx.itemAttributes(item.ownerId)) + BacktraceSpans(ctx.backtrace(item.span))
  }

  /** Every span in a translated item is the translation of an exported
      host span. */
  lemma LowerItemSpansExported(ctx: Ctx, item: HostItem)
    ensures var r := LowerItem(ctx, item);
            var exported := ItemSpans(ctx, item);
            && (exists h :: h in exported && ctx.translate(h) == r.span)
            && (exists h :: h in exported && ctx.translate(h) == r.visSpan)
            && (forall i :: 0 <= i < |r.attributes| ==> exists h :: h in exported && ctx.translate(h) == r.attributes[i].span)
            && (forall i :: 0 <= i < |r.expnBacktrace| ==>
                  && (exists h :: h in exported && ctx.translate(h) == r.expnBacktrace[i].callSite)
                  && (exists h :: h in exported && ctx.translate(h) == r.expnBacktrace[i].defSite))
  {
    var r := LowerItem(ctx, item);
    var exported := ItemSpans(ctx, item);
    var attrs := ctx.itemAttributes(item.ownerId);
    var bt := ctx.backtrace(item.span);
    assert item.span in exported && item.visSpan in exported;
    forall i | 0 <= i < |r.attributes|
      ensures exists h :: h in exported && ctx.translate(h) == r.attributes[i].span
    {
      assert attrs[i].span in AttrSpans(attrs);
    }
    forall i | 0 <= i < |r.expnBacktrace|
      ensures exists h :: h in exported && ctx.translate(h) == r.expnBacktrace[i].callSite
      ensures exists h :: h in exported && ctx.translate(h) == r.expnBacktrace[i].defSite
    {
      assert bt[i].callSite in BacktraceSpans(bt);
      assert bt[i].defSite in BacktraceSpans(bt);
    }
  }

  /** Translating several items: the concatenation of their translations
      and the union of their exported spans. */
  function LowerItems(ctx: Ctx, items: seq<HostItem>): (r: (seq<Item>, set<HostSpan>))
    ensures |r.0| == |items|
    ensures forall i :: 0 <= i < |items| ==> r.0[i] == LowerItem(ctx, items[i])
    ensures forall i :: 0 <= i < |items| ==> ItemSpans(ctx, items[i]) <= r.1
  {
    if |items| == 0 then ([], {})
    else
      var rest := LowerItems(ctx, items[1..]);
      assert forall i :: 1 <= i < |items| ==> items[i] == items[1..][i - 1];
      ([LowerItem(ctx, items[0])] + rest.0, ItemSpans(ctx, items[0]) + rest.1)
  }
}

# hax exporter normalisation rules, in Dafny

This project models the pure core of the hax frontend exporter: the
translation of rustc's typed intermediate representation (THIR expressions,
patterns, blocks and statements, HIR items) into the portable, serialisable
AST, together with the small helpers of the command-line options crate. It
then proves properties of that model.

Modelled:

- **Identifiers.** `Path::from(DefId)` keeps the crate name and then only
  the named (`TypeNs`, `ValueNs`, `MacroNs`, `LifetimeNs`) definition-path
  segments. An item's `def_id` is its owner exactly when that path ends with
  the item's name.
- **Expressions and patterns.** Translation is one function returning
  `Result<_, Fatal>`: a `fatal!`, an `s_unwrap` or a Rust panic is an `Err`.
  - Scopes are unrolled and supply the HIR node and attributes.
  - A foldable macro call at the expression's span wins over the expression's
    own kind.
  - Non-HIR literals and zero-sized literals are resolved. A function item
    becomes a global name placed at the span before unrolling.
  - Field accesses become `Field` or `TupleField` according to the base type.
  - A block that is only a safe tail expression and is not the target of a
    `break` is absorbed into that expression.
  - `Leaf` patterns become the pattern on variant 0 of an ADT, or a tuple
    pattern.
  - Binding patterns record the variable's name, which variable references
    read back.
  - Every kind that has been eliminated by then is fatal.
- **Translation state.** The exporter's mutable state is threaded
  explicitly. The local-variable table is only ever extended. Every
  translation returns the set of host spans it exported (`SInto<Span>`
  records every span it converts).
- **Variant information** (`get_variant_information`). The record tests, the
  struct test, the lookup of the variant by identifier and the type's
  namespace.
- **Span text** (`read_span_from_file`). Selecting the lines and columns of a
  span from a file given as its lines, with the three error cases.
- **Macro folding.** `raw_macro_invocation_of_span`,
  `macro_invocation_of_raw_mac_invocation`, `macro_invocation_of_span`, and
  `inline_macro_invocations`. The last groups consecutive items by call site
  and collapses each folded run into one `MacroInvokation` item.
- **Constants.** The selection between a literal, a type-level expression and
  an opaque rendering for an evaluated constant, including `unwrap_borrow`.
- **CLI options.** The `-`-or-path argument, `map_path`, path normalisation
  of the parsed options, backend names, and the hand-over to the exporter's
  options.

Modelling decisions:

- **Compiler queries are inputs.** The queries the source makes of rustc are
  fields of a `Ctx` value:
  - the source-map lookup of `translate_span`;
  - `macro_backtrace`;
  - the registered macro calls;
  - `Namespace::matches`;
  - the region-scope attributes and item attributes;
  - the source files.
- **Host trees own their children.** Host expressions hold their
  sub-expressions directly instead of indices into the THIR arena.
- **Declared form of `VariantInformations`.** `get_variant_information`
  (frontend/exporter/src/rustc_utils.rs:33) sets a `variant_index` field.
  The declaration of `VariantInformations` (copied.rs:1319-1334) has no such
  field. The model follows the declaration.
- **One form of `ReadSpanErr`.** The type is declared in two forms. The model
  has the three variants of the one in rustc_utils.rs:57-62, with abstract
  payloads. `NotRealFileName` carries the file name itself rather than its
  `{:#?}` rendering (rustc_utils.rs:74). `WhileReading` carries the missing
  path rather than an `std::io::Error`.

Files:

| file | module | contents |
|---|---|---|
| wrappers.dfy | `Wrappers` | `Option`, `Result`, `Fatal` |
| identifiers.dfy | `Identifiers` | `DefId`, `Path::from` |
| spans.dfy | `Spans` | spans, file names, `read_span_from_file` |
| portable.dfy | `Portable` | the emitted AST |
| frontend_options.dfy | `FrontendOptions` | the exporter's options |
| host.dfy | `Host` | the compiler-side trees and the `Ctx` of queries |
| variants.dfy | `Variants` | `get_variant_information` |
| items.dfy | `Items` | attributes, expansion data, items |
| macros.dfy | `Macros` | macro folding |
| lowering.dfy | `Lowering` | expressions, blocks, statements, patterns |
| lowering_facts.dfy | `LoweringFacts` | the rules of the translation as lemmas |
| constants.dfy | `Constants` | `ConstantKind` |
| cli.dfy | `CliOptions` | the command-line option helpers |

## Model

| member | source | states |
|---|---|---|
| Identifiers.PathOf | frontend/exporter/src/types/copied.rs:28-40 | a path starts with the crate name and has at most one more name per definition-path segment |
| Identifiers.NamedSymbolsAppend | frontend/exporter/src/types/copied.rs:30-37 | the named-segment filter distributes over concatenation of definition paths |
| Identifiers.NamedSymbolsSingle | frontend/exporter/src/types/copied.rs:31-36 | a single segment contributes its symbol exactly when it is in the type, value, macro or lifetime namespace, and nothing otherwise |
| Identifiers.NamedSymbolsCount | frontend/exporter/src/types/copied.rs:30-37 | the filter keeps exactly one name per named segment |
| Identifiers.PathOfLength | frontend/exporter/src/types/copied.rs:28-40 | a path's length is one plus the number of named segments |
| Identifiers.NamedSymbolsFromSegments | frontend/exporter/src/types/copied.rs:30-37 | every name after the crate is the symbol of some named segment: nothing is invented |
| Items.PathOfLast | frontend/exporter/src/types/copied.rs:28-40 | the last element of a path is the last named segment's symbol, or the crate name when no segment is named |
| Items.ItemDefId | frontend/exporter/src/types/copied.rs:2604-2609 | an item's `def_id`, when present, is its owner |
| Items.ItemDefIdCharacterisation | frontend/exporter/src/types/copied.rs:2604-2609 | an item has a `def_id` if and only if its name is the last named segment of its owner's path (or the crate name when there is none) |
| Items.ItemDefIdExamples | frontend/exporter/src/types/copied.rs:2604-2609 | `fn f` in `mod m` keeps its identifier; an `impl` block, whose owner path ends in an unnamed segment, gets none |
| Items.LowerAttributes | frontend/exporter/src/types/copied.rs:89-97 | the translation of attributes keeps their number, and each one keeps its kind, id and style and gets its span translated |
| Items.LowerItem | frontend/exporter/src/types/copied.rs:2600-2635 | an item's `def_id` follows the path rule; owner, spans, kind and attributes are carried over; the backtrace is translated entry by entry |
| Items.LowerItemSpansExported | frontend/exporter/src/types/copied.rs:601-607 | every span in a translated item is the translation of a host span its translation exported |
| Items.LowerItems | frontend/exporter/src/rustc_utils.rs:305 | translating items one by one keeps their order and count and exports every item's spans |
| Spans.Skip | frontend/exporter/src/rustc_utils.rs:82 | skipping `n` lines is the suffix from `min(n, length)` |
| Spans.Take | frontend/exporter/src/rustc_utils.rs:83 | taking `n` lines is the prefix up to `min(n, length)` |
| Spans.SelectLines | frontend/exporter/src/rustc_utils.rs:80-84 | at most `hi.line - lo.line + 1` lines are selected, starting at the 1-based line `lo.line` |
| Spans.ColumnFilter | frontend/exporter/src/rustc_utils.rs:88-93 | filtering characters by index in `[lo, hi)` yields one contiguous slice of the line |
| Spans.ColumnFilterStep | frontend/exporter/src/rustc_utils.rs:88-93 | the head character followed by the slice of the tail is the slice of the whole line |
| Spans.FirstIndex | frontend/exporter/src/rustc_utils.rs:101 | the first occurrence of a character: an index holding it with none before it |
| Spans.ReadSpanFromFile | frontend/exporter/src/rustc_utils.rs:70-104 | each of the three errors occurs exactly in its case: the file name is not a local path, the file is missing, or fewer lines than `lo.line` exist |
| Spans.SplitJoin | frontend/exporter/src/rustc_utils.rs:96-101 | joining newline-free lines with `"\n"` can be undone by splitting at newlines |
| Spans.CountNewlinesAppend | frontend/exporter/src/rustc_utils.rs:101 | newline counts add up over concatenation |
| Spans.NoNewlineCount | frontend/exporter/src/rustc_utils.rs:81 | a line as read holds no newline |
| Spans.JoinNewlines | frontend/exporter/src/rustc_utils.rs:96-101 | joining `n` newline-free lines yields exactly `n - 1` newlines |
| Spans.NoNewlineSlice | frontend/exporter/src/rustc_utils.rs:95-96 | a slice of a newline-free line is newline-free |
| Spans.ReadSpanSingleLine | frontend/exporter/src/rustc_utils.rs:88-93 | a span on one line yields that line's characters at columns `[lo.col, hi.col)` |
| Spans.ReadSpanMultiLine | frontend/exporter/src/rustc_utils.rs:94-102 | a multi-line read is the first line from `lo.col`, the middle lines verbatim and the last line up to `hi.col`, and has one newline fewer than lines |
| Variants.IsRecord | frontend/exporter/src/rustc_utils.rs:18-23 | a field list is a record if and only if some field name does not parse as a `u64`, so an empty list is not one |
| Variants.FindVariant | frontend/exporter/src/rustc_utils.rs:24-28 | the variant found is the first with the given identifier, and nothing is found exactly when no variant has it |
| Variants.TypeNamespace | frontend/exporter/src/rustc_utils.rs:38-53 | the namespace has the type's crate and its path without the last segment; an empty path is fatal |
| Variants.TypeNamespacePath | frontend/exporter/src/rustc_utils.rs:38-53 | the namespace's portable path is the type's path without at most its own name |
| Variants.IsRecordAppend | frontend/exporter/src/rustc_utils.rs:18-23 | the record test over concatenated field lists is the disjunction of the tests |
| Variants.HasNamedFieldCons | frontend/exporter/src/rustc_utils.rs:18-23 | some variant has a named field if and only if the first does or one of the rest does |
| Variants.AllFieldsRecord | frontend/exporter/src/rustc_utils.rs:35 | the record test over all fields holds exactly when some variant has a named field |
| Variants.GetVariantInformation | frontend/exporter/src/rustc_utils.rs:12-55 | the corrected function: it succeeds if and only if the variant exists and the type has a path; it sets the struct flag, both record flags and the namespace as the source computes them |
| Variants.GetVariantInformationAsWritten | frontend/exporter/src/rustc_utils.rs:17 | the source as written fails on every enum and otherwise agrees with the corrected function |
| Variants.TypIsRecordImpliesStruct | frontend/exporter/src/rustc_utils.rs:35-37 | a record type is a struct |
| Variants.StructRecordConsistency | frontend/exporter/src/types/copied.rs:1326-1327 | for a struct (one variant), the type is a record exactly when its variant is |
| Variants.NamedStructIsRecord | frontend/exporter/src/rustc_utils.rs:35-37 | `struct P { x: bool }` is a struct, a record type and a record variant in the root namespace |
| Variants.TupleStructIsNotRecord | frontend/exporter/src/rustc_utils.rs:18-23 | `struct T(u8)` is a struct but neither a record type nor a record variant |
| Variants.EnumVariantRejectedAsWritten | frontend/exporter/src/rustc_utils.rs:17 | the `Some` variant of an `Option`-like enum is rejected as written but described by the corrected function |
| Variants.EnumVariantInformation | frontend/exporter/src/types/copied.rs:1376-1392 | the corrected function describes every variant of an enum with a path, as the `Variant` pattern arm needs |
| Macros.AnyPatternMatches | frontend/exporter/src/rustc_utils.rs:205-208 | some allowlist pattern matches the path if and only if the `any` holds |
| Macros.FindMacro | frontend/exporter/src/rustc_utils.rs:198-219 | the result is the first backtrace entry that is a macro expansion with a definition, a registered call site and an allowlisted path; nothing is found exactly when no entry qualifies |
| Macros.MacroInvocationOfRaw | frontend/exporter/src/rustc_utils.rs:223-237 | folding succeeds if and only if the call site is registered and its argument span can be read, and then carries the macro, the argument text and the call site |
| Macros.MacroInvocationOfSpan | frontend/exporter/src/rustc_utils.rs:240-250 | there is no folded call exactly when no entry qualifies, and a folded call names the qualifying macro |
| Macros.MacroInvocationFailsOnlyOnRead | frontend/exporter/src/rustc_utils.rs:230-234 | folding a span aborts if and only if a qualifying entry exists and reading its argument fails |
| Macros.MacroInvocationIsInnermost | frontend/exporter/src/rustc_utils.rs:198-237 | a folded call comes from the innermost qualifying entry and its argument is the text of the registered argument span |
| Macros.GroupBy | frontend/exporter/src/rustc_utils.rs:286 | grouping splits the items into non-empty maximal runs of equal keys that concatenate back to the input |
| Macros.GroupingExtendsRun | frontend/exporter/src/rustc_utils.rs:286 | an element with the key of the first run joins that run, keeping a grouping |
| Macros.GroupingStartsRun | frontend/exporter/src/rustc_utils.rs:286 | an element with a different key starts a new run, keeping a grouping |
| Macros.OneKeyOneRun | frontend/exporter/src/rustc_utils.rs:277-286 | items that all share one key form a single run |
| Macros.LowerRun | frontend/exporter/src/rustc_utils.rs:288-305 | a run without a macro is translated item by item; a folded run becomes one `MacroInvokation` item at its call site, owned by the run's first item, with no `def_id`, attributes or backtrace |
| Macros.FoldedRun | frontend/exporter/src/rustc_utils.rs:288-303 | a folded run is fatal if and only if the argument registered for its call site cannot be read; otherwise its one item names the run's macro and carries the argument's text |
| Macros.PlainRun | frontend/exporter/src/rustc_utils.rs:305 | a lone item outside any foldable call is translated on its own |
| Macros.RunItems | frontend/exporter/src/rustc_utils.rs:287-305 | one translation per run, each the translation of that run, in the order of the runs |
| Macros.LowerRuns | frontend/exporter/src/rustc_utils.rs:287-308 | the runs translate if and only if every run does, to the concatenation of the runs' translations in order, never more items than the runs hold |
| Macros.CallSiteRuns | frontend/exporter/src/rustc_utils.rs:277-286 | the items split into maximal runs of equal call sites of their foldable macro call |
| Macros.InlineMacroInvocations | frontend/exporter/src/rustc_utils.rs:271-309 | a module is fatal exactly when one of its runs is; otherwise its items are the concatenation, in order, of each run's translation (item by item, or one folded item), and never more than it had |
| Macros.NoMacroIsItemwise | frontend/exporter/src/rustc_utils.rs:305 | without any foldable macro call, a module's items are translated one by one, in order |
| Macros.NoMacroRuns | frontend/exporter/src/rustc_utils.rs:305 | runs without macro calls translate to the item-by-item translation of their concatenation |
| Macros.LowerItemsAppend | frontend/exporter/src/rustc_utils.rs:306-308 | item-by-item translation distributes over concatenation |
| Macros.LowerItemsCons | frontend/exporter/src/rustc_utils.rs:305 | translating a leading item puts its translation first |
| Macros.OneCallCollapses | frontend/exporter/src/rustc_utils.rs:288-303 | items produced by one foldable call at one call site collapse into one `MacroInvokation` item at that call site, owned by the first of them, whose argument is the text of the argument span registered for the call site |
| Macros.LowerRunsCount | frontend/exporter/src/rustc_utils.rs:287-308 | the output keeps one item per item outside a foldable call and one item per folded run |
| Macros.ThreeRuns | frontend/exporter/src/rustc_utils.rs:286 | a run of one key between two elements of other keys gives three runs |
| Macros.CallSiteThreeRuns | frontend/exporter/src/rustc_utils.rs:277-286 | two items from one call site between items of other call sites form three runs |
| Macros.LowerThreeRuns | frontend/exporter/src/rustc_utils.rs:306-308 | three runs translate to the concatenation of their translations |
| Macros.MixedRuns | frontend/exporter/src/rustc_utils.rs:287-308 | a plain item, a folded run and a plain item translate to three items in that order, the middle one being the folded run's item |
| Macros.MixedModule | frontend/exporter/src/rustc_utils.rs:285-308 | a plain item, two items from one foldable call and another plain item become, in order, the first item, one `MacroInvokation` item at the call site owned by the first produced item, and the last item |
| Lowering.ImageUnion | frontend/exporter/src/types/copied.rs:601-607 | the positions of two sets of exported spans are the positions of their union |
| Lowering.AttributeSpansExported | frontend/exporter/src/types/copied.rs:89-97 | every translated attribute's span is the translation of an exported attribute span |
| Lowering.UnrollScope | frontend/exporter/src/types/copied.rs:1892-1906 | the result is never a scope, and unrolling neither grows the expression nor changes its bound variables |
| Lowering.UnrollScopeCharacterisation | frontend/exporter/src/types/copied.rs:1892-1906 | the result is the one non-scope expression reached from the input through scopes only |
| Lowering.UnrollScopeIdempotent | frontend/exporter/src/types/copied.rs:1892-1906 | a non-scope expression is unchanged, so unrolling is idempotent |
| Lowering.HirIdAndAttributes | frontend/exporter/src/types/copied.rs:1880-1891 | an expression other than a scope has no HIR node and no attributes |
| Lowering.LowerLocalVarId | frontend/exporter/src/types/copied.rs:615-632 | a variable translates if and only if it was bound, to the recorded name; otherwise it panics |
| Lowering.LowerExpr | frontend/exporter/src/types/copied.rs:906-994 | every span in the translated expression was exported, and the variable table only gains the expression's own binders |
| Lowering.LowerContents | frontend/exporter/src/types/copied.rs:910-913 | the placement span is exported, every span in the contents is exported, and the table only gains binders |
| Lowering.LowerUnfolded | frontend/exporter/src/types/copied.rs:914-985 | the same invariants for the special arms and the derived translation without a folded call |
| Lowering.LowerFieldAccess | frontend/exporter/src/types/copied.rs:944-984 | the same invariants for a field access |
| Lowering.LowerExprKind | frontend/exporter/src/types/copied.rs:1593-1605 | the same invariants for the derived translation of every expression kind |
| Lowering.LowerLeafKind | frontend/exporter/src/types/copied.rs:1595-1605 | kinds without sub-expressions export their spans and never change the variable table |
| Lowering.LowerBorrowExpr | frontend/exporter/src/types/copied.rs:1781-1784 | the same invariants for a borrow |
| Lowering.LowerTupleExpr | frontend/exporter/src/types/copied.rs:1810-1812 | the same invariants for a tuple |
| Lowering.LowerLetExpr | frontend/exporter/src/types/copied.rs:1722-1725 | the same invariants for `let` in expression position, whose pattern's bindings stay visible |
| Lowering.LowerBlockExpr | frontend/exporter/src/types/copied.rs:1726-1737 | the same invariants for a block, absorbed or kept |
| Lowering.LowerExprs | frontend/exporter/src/types/copied.rs:1810-1812 | one translation per expression, in order, threading the variable table |
| Lowering.LowerOptExpr | frontend/exporter/src/types/copied.rs:723 | an optional expression stays present or absent |
| Lowering.LowerBlock | frontend/exporter/src/types/copied.rs:715-725 | a block keeps its statement count, the presence of its tail, its safety mode and its `break` flag |
| Lowering.LowerOptBlock | frontend/exporter/src/types/copied.rs:1267 | an optional block stays present or absent |
| Lowering.LowerStmts | frontend/exporter/src/types/copied.rs:722 | one translation per statement, threading the variable table |
| Lowering.LowerStmt | frontend/exporter/src/types/copied.rs:1257-1272 | every span in a translated statement was exported, and the table only gains binders |
| Lowering.LowerLetStmt | frontend/exporter/src/types/copied.rs:1262-1271 | a `let` statement's attributes come from its initializer scope, with the same invariants |
| Lowering.LowerPat | frontend/exporter/src/types/copied.rs:1002-1043 | a translated pattern has no HIR node and no attributes, and all its spans were exported |
| Lowering.LowerPatContents | frontend/exporter/src/types/copied.rs:1005-1034 | the same invariants for the contents of a pattern |
| Lowering.LowerPatKind | frontend/exporter/src/types/copied.rs:1344-1367 | the same invariants for the derived translation of every pattern kind |
| Lowering.LowerVariantPat | frontend/exporter/src/types/copied.rs:1376-1392 | the same invariants for a pattern on a variant |
| Lowering.LowerFieldPats | frontend/exporter/src/types/copied.rs:1382-1388 | every field sub-pattern is labelled with the definition of the field it matches, which must exist |
| Lowering.LowerLeafTuple | frontend/exporter/src/types/copied.rs:1016-1022 | one translated sub-pattern per field pattern, in order |
| Lowering.LowerPats | frontend/exporter/src/types/copied.rs:1423-1425 | one translated pattern per pattern, threading the table |
| Lowering.LowerOptPat | frontend/exporter/src/types/copied.rs:1363 | an optional sub-pattern stays present or absent |
| LoweringFacts.ExprFromContents | frontend/exporter/src/types/copied.rs:986-993 | a translated expression has the contents and placement chosen for the scope-free expression, and the type of that expression |
| LoweringFacts.NoMacroContents | frontend/exporter/src/types/copied.rs:912-914 | without a folded call, the contents are those of the expression's own kind |
| LoweringFacts.PatFromContents | frontend/exporter/src/types/copied.rs:1035-1041 | a translated pattern's contents are those of its kind |
| LoweringFacts.MacroWins | frontend/exporter/src/types/copied.rs:910-913 | with a folded call, the expression becomes that `MacroInvokation` whatever its kind, placed at the unrolled span, binding nothing, with the call site exported |
| LoweringFacts.MacroReadFailureIsFatal | frontend/exporter/src/rustc_utils.rs:234 | a failed read of a folded call's argument is fatal for the expression |
| LoweringFacts.FieldAccess | frontend/exporter/src/types/copied.rs:944-984 | a field on an ADT becomes `Field` with the chosen variant's field identifier, if and only if the indices are in range; on a tuple it becomes `TupleField` at the position; on any other type it is fatal |
| LoweringFacts.NonHirLiteralIsLiteral | frontend/exporter/src/types/copied.rs:915-921 | a non-HIR literal becomes a non-negated literal at the expression's span |
| LoweringFacts.ZstLiteralLowering | frontend/exporter/src/types/copied.rs:922-943 | a function item becomes a global name placed at the span before unrolling; any other zero-sized literal stays one at the unrolled span |
| LoweringFacts.BlockAbsorption | frontend/exporter/src/types/copied.rs:1726-1737 | a block that is only a safe tail expression not targeted by `break` becomes that expression's contents; every other block stays a block |
| LoweringFacts.VarRefLookup | frontend/exporter/src/types/copied.rs:1766-1768 | a variable reference translates if and only if its variable was bound, to the recorded name, leaving the table unchanged |
| LoweringFacts.BindingRecordsName | frontend/exporter/src/types/copied.rs:1354-1367 | a binding pattern records its variable's name, which its own translation carries and the table keeps |
| LoweringFacts.VarRefExpr | frontend/exporter/src/types/copied.rs:615-632 | a variable-reference expression translates if and only if its variable was bound, to the recorded name |
| LoweringFacts.LetBinds | frontend/exporter/src/types/copied.rs:1262-1271 | a `let` statement binding a name leaves that name recorded |
| LoweringFacts.LetThenUse | frontend/exporter/src/types/copied.rs:1355-1361 | in `{ let x = init; x }` the tail reference reads the name the pattern bound |
| LoweringFacts.BlockTail | frontend/exporter/src/types/copied.rs:715-725 | a block's tail is translated after all of its statements, with their bindings |
| LoweringFacts.LeafOnAdtIsVariantZero | frontend/exporter/src/types/copied.rs:1006-1015 | a `Leaf` pattern on an ADT translates as the pattern on variant 0 |
| LoweringFacts.Patterns | frontend/exporter/src/types/copied.rs:1017-1020 | the sub-patterns of field patterns, in order |
| LoweringFacts.LeafOnTupleIsTuple | frontend/exporter/src/types/copied.rs:1016-1031 | a `Leaf` pattern on a tuple is the tuple of its sub-patterns in order; on any other type it is fatal |
| LoweringFacts.LeafTupleIsPats | frontend/exporter/src/types/copied.rs:1016-1022 | the tuple's sub-patterns translate as a plain list of patterns |
| LoweringFacts.PatternsAreBare | frontend/exporter/src/types/copied.rs:1035-1041 | no translated pattern carries a HIR node or attributes |
| LoweringFacts.ScopeTransparent | frontend/exporter/src/types/copied.rs:906-913 | a scope changes only the HIR node and attributes, which come from the scope, and the span of a function item |
| LoweringFacts.ContentsThroughScope | frontend/exporter/src/types/copied.rs:910-913 | the contents are computed on the scope-free expression |
| LoweringFacts.LowerExprIn | frontend/exporter/src/types/copied.rs:601-607 | a translation step only grows the exported set, which covers the result's spans, and only extends the table |
| LoweringFacts.SequencedLowering | frontend/exporter/src/types/copied.rs:601-607 | after two steps, every span of either result is exported, the table is extended by both expressions' binders only, and a name recorded by the first step survives unless the second expression binds it again |
| Constants.UnwrapBorrow | frontend/exporter/src/types/copied.rs:1909-1916 | the result is the expression or, for a borrow, its argument, which is strictly smaller |
| Constants.UnwrapBorrowOnce | frontend/exporter/src/types/copied.rs:1909-1916 | one borrow is removed: unwrapping is idempotent exactly on expressions that are not a borrow of a borrow |
| Constants.ConstantKindOf | frontend/exporter/src/types/copied.rs:158-188 | fatal if and only if the value is a pointer scalar, on which `assert_int` panics; a literal if and only if an integer scalar or a type-level literal (borrowed or not); an opaque rendering exactly for other values and unevaluated constants; otherwise the type-level expression without one outer borrow |
| Constants.TyLevelLiteral | frontend/exporter/src/types/copied.rs:173-182 | a type-level literal, borrowed or not, gives the same literal as the scalar, dropping its span and negation flag |
| Constants.TyLevelExpressionRecoverable | frontend/exporter/src/types/copied.rs:173-184 | a type-level constant that is not a literal is kept as its expression without one outer borrow |
| CliOptions.PathOrDashFromOsStr | cli/options/src/lib.rs:36-44 | the argument is standard output if and only if it is `-`, and otherwise the path as written |
| CliOptions.PathOrDashRoundTrip | cli/options/src/lib.rs:36-44 | parsing then writing back gives the argument; writing then parsing gives back every destination except a file named `-` |
| CliOptions.MapPath | cli/options/src/lib.rs:53-58 | standard output is kept and a path is mapped |
| CliOptions.MapPathFunctor | cli/options/src/lib.rs:53-58 | mapping the identity changes nothing, and two maps are one map of the composition |
| CliOptions.JoinPath | cli/options/src/lib.rs:68 | joining onto an absolute directory gives an absolute path that ends with the joined path |
| CliOptions.AbsolutePath | cli/options/src/lib.rs:61-73 | the result is the cleaning of the path itself or, for a relative path, of the path resolved against the current directory; an absolute path is only cleaned |
| CliOptions.AbsolutePathIdempotent | cli/options/src/lib.rs:61-73 | with an absolute current directory and a cleaning that keeps paths absolute and is idempotent, the result is absolute and making it absolute again changes nothing |
| CliOptions.NormalizePathOrDash | cli/options/src/lib.rs:84-91 | standard output is kept; a path stays a path, an absolute one is only cleaned, and the result is absolute in a well-behaved environment |
| CliOptions.NormalizeIsMapPath | cli/options/src/lib.rs:79-91 | normalising a destination is mapping `absolute_path` over it |
| CliOptions.BackendName | cli/options/src/lib.rs:103-111 | every backend has a non-empty display name |
| CliOptions.BackendNameInjective | cli/options/src/lib.rs:103-111 | two backends display alike if and only if they are the same |
| CliOptions.NormalizeExporterCommand | cli/options/src/lib.rs:202-212 | a backend command is unchanged and a JSON command gets its output file normalised |
| CliOptions.NormalizeCommand | cli/options/src/lib.rs:214-221 | a lint command is unchanged and an exporter command is normalised |
| CliOptions.NormalizeOptions | cli/options/src/lib.rs:222-229 | only the command changes |
| CliOptions.NormalizeOnlyTouchesOutputPath | cli/options/src/lib.rs:202-229 | normalising the options replaces the JSON output path by its `absolute_path` and changes nothing else |
| CliOptions.NormalizeIdempotent | cli/options/src/lib.rs:79-91 | in a well-behaved environment, normalising twice is normalising once |
| CliOptions.ToFrontendOptions | cli/options/src/lib.rs:231-237 | the exporter receives the macro patterns verbatim |
| CliOptions.FrontendOptionsIgnoreNormalization | cli/options/src/lib.rs:222-237 | the exporter's options are the same whether or not the command line was normalised |

## Left out

- Compiler queries are parameters of the `Ctx` datatype and are not modelled:
  - the source-map lookup of `translate_span` (rustc_utils.rs:107-119);
  - `macro_backtrace`;
  - definition paths;
  - `hir().attrs`;
  - `region_scope_tree` (`attribute_from_scope` reads the scope's HIR node and attributes from `Ctx.scopeAttributes`);
  - `scalar_int_to_literal` (literal payloads arrive decoded);
  - constant evaluation (`Constants.ConstantKindOf` takes the outcome of `eval` and, for a type-level constant, its already translated expression);
  - `fn_sig` and `erase_late_bound_regions`.
- The signature computed in the function-item arm of the expression translation is discarded by the source, so it is not modelled.
- `Namespace::matches` is the `Ctx.matches` parameter. Its glob semantics are only described in a comment in the options crate.
- The mirror types derived by `AdtInto` are reduced to the node kinds the normalisation rules act on.
  - Every other THIR expression kind is the single host kind `Unsupported`. It translates to `Todo` with its rendering.
  - Other pattern kinds and type kinds are left out the same way.
- `supposely_unreachable!` only logs. So a field access whose variant index is not 0 is not fatal, and neither is a zero-sized literal whose type is not a function item; the model follows this.
- File I/O in `read_span_from_file` is left out. A file is the sequence of its lines, and opening a missing file is the `WhileReading` error.
- Spans.ReadSpanFromFile: requires `1 <= lo.line <= hi.line` whenever an existing local file is read. The source's `usize` subtractions would underflow otherwise.
- Spans.ReadSpanFromFile: the error payloads are abstract. `NotRealFileName` holds the file name, not its `{:#?}` rendering, because debug formatting is not modelled. `WhileReading` holds the missing path, not an `std::io::Error`, because file I/O is not modelled.
- Items.LowerItem: an item's kind is an opaque description that is carried over, so translating an item never fails. The source translates `ItemKind` with `sinto` (copied.rs:2620-2628). That runs item bodies through the expression translation, whose fatal paths are modelled only for expressions (`Lowering.LowerExpr`). A module whose items have a fatal body is therefore `Ok` in `Macros.InlineMacroInvocations`.
- Lowering.LowerVariantPat: calls the corrected `Variants.GetVariantInformation` (see Findings). A pattern on an enum variant therefore translates. As written, the assertion at rustc_utils.rs:17 rejects every enum, so the same pattern would be fatal. `s_assert!` is defined outside the modelled files. The model reads it as a fatal assertion, like the `fatal!` and `s_unwrap` next to it.
- `AdtExpr` (copied.rs:482), the other caller of `get_variant_information`, is among the expression kinds left out.
- `_resolve_trait`, `get_param_env` and `arrow_of_sig` in rustc_utils.rs drive the compiler directly and are not part of this model.
- Command-line parsing (clap), serialisation (serde, JSON Schema), `File::create`, standard output (`open_or_stdout`) and `ForceCargoBuild` are left out. `ForceCargoBuild` reads the system clock; its value is a plain field.
- `absolute_path` is modelled, but two of its inputs are parameters.
  - The current directory is a parameter. Reading it is assumed not to fail, because the source unwraps the error.
  - `path_clean` is a parameter function. Absolute paths are Unix paths that start at `/`; Windows prefixes are not modelled.
- CliOptions.NormalizeIdempotent: assumes that cleaning keeps absolute paths absolute and is idempotent on them, rather than proving it, because `path_clean` is outside the model.
- The engine-debugging directory of the backend options is a path the source does not normalise. The model keeps it unchanged too.
- tests/side-effects/src/lib.rs is a fixture program fed to the exporter, not exporter logic.

## Findings

| source | as written | input that shows it | evidently intended | confidence | as-written member | corrected member |
|---|---|---|---|---|---|---|
| frontend/exporter/src/rustc_utils.rs:17 | `get_variant_information` asserts that the type is not an enum, so it aborts on every enum variant | the `Some` variant of an `Option`-like enum, as reached from a `Variant` pattern (copied.rs:1376-1392) | enum variants are described like struct variants, with `typ_is_struct` false | not executed; `s_assert!` is defined outside the modelled files and is read as aborting | Variants.GetVariantInformationAsWritten, Variants.EnumVariantRejectedAsWritten | Variants.GetVariantInformation, Variants.EnumVariantInformation |

/** Qualified identifiers: the portable `DefId` (a crate name and the
    disambiguated segments of its definition path) and its projection to a
    plain `Path` of names (frontend/exporter/src/types/copied.rs:3-40). */
module Identifiers {

  import opened Wrappers

  type Symbol = string

  /** The namespace tag of one definition-path segment. Only the four
      namespaces carrying a symbol contribute to a `Path`. */
  datatype DefPathItem =
    | CrateRoot
    | Impl
    | ForeignMod
    | Use
    | GlobalAsm
    | TypeNs(typeName: Symbol)
    | ValueNs(valueName: Symbol)
    | MacroNs(macroName: Symbol)
    | LifetimeNs(lifetimeName: Symbol)
    | ClosureExpr
    | Ctor
    | AnonConst
    | ImplTrait
    | ImplTraitAssocTy

  datatype DisambiguatedDefPathItem = DisambiguatedDefPathItem(data: DefPathItem, disambiguator: nat)

  datatype DefId = DefId(krate: string, path: seq<DisambiguatedDefPathItem>)

  /** A `Path` is the list of names of a definition, crate first. */
  type Path = seq<string>

  /** The symbol a segment contributes to a `Path`, if any. */
  function SegmentName(item: DisambiguatedDefPathItem): Option<Symbol> {
    match item.data
    case TypeNs(s) => Some(s)
    case ValueNs(s) => Some(s)
    case MacroNs(s) => Some(s)
    case LifetimeNs(s) => Some(s)
    case _ => None
  }

  predicate IsNamed(item: DisambiguatedDefPathItem) {
    SegmentName(item).Some?
  }

  /** The `filter_map` of copied.rs:31-37: the named segments' symbols, in order. */
  function NamedSymbols(path: seq<DisambiguatedDefPathItem>): (names: seq<Symbol>)
    ensures |names| <= |path|
  {
    if |path| == 0 then []
    else
      match SegmentName(path[0])
      case Some(s) => [s] + NamedSymbols(path[1..])
      case None => NamedSymbols(path[1..])
  }

  /** `Path::from(DefId)`. */
  function PathOf(d: DefId): (p: Path)
    ensures |p| >= 1 && p[0] == d.krate
    ensures |p| <= 1 + |d.path|
  {
    [d.krate] + NamedSymbols(d.path)
  }

  /** Filtering distributes over concatenation: together with the one-segment
      cases below this characterises `NamedSymbols` completely. */
  lemma {:induction false} NamedSymbolsAppend(a: seq<DisambiguatedDefPathItem>, b: seq<DisambiguatedDefPathItem>)
    ensures NamedSymbols(a + b) == NamedSymbols(a) + NamedSymbols(b)
    decreases |a|
  {
    if |a| == 0 {
      assert a + b == b;
    } else {
      assert (a + b)[1..] == a[1..] + b;
      NamedSymbolsAppend(a[1..], b);
    }
  }

  /** A single segment contributes its symbol exactly when it is in one of the
      four named namespaces, and nothing otherwise. */
  lemma NamedSymbolsSingle(item: DisambiguatedDefPathItem)
    ensures IsNamed(item) ==> NamedSymbols([item]) == [SegmentName(item).value]
    ensures !IsNamed(item) ==> NamedSymbols([item]) == []
  {
    assert [item][1..] == [];
  }

  /** The path has exactly one name per named segment; every other segment is dropped. */
  function CountNamed(path: seq<DisambiguatedDefPathItem>): nat {
    if |path| == 0 then 0 else (if IsNamed(path[0]) then 1 else 0) + CountNamed(path[1..])
  }

  lemma {:induction false} PathOfLength(d: DefId)
    ensures |PathOf(d)| == 1 + CountNamed(d.path)
  {
    NamedSymbolsCount(d.path);
  }

  lemma {:induction false} NamedSymbolsCount(path: seq<DisambiguatedDefPathItem>)
    ensures |NamedSymbols(path)| == CountNamed(path)
    decreases |path|
  {
    if |path| > 0 {
      NamedSymbolsCount(path[1..]);
    }
  }

  /** Every name after the crate is the symbol of some named segment of the
      definition path: nothing is invented. */
  lemma {:induction false} NamedSymbolsFromSegments(path: seq<DisambiguatedDefPathItem>, k: nat)
    requires k < |NamedSymbols(path)|
    ensures exists i :: 0 <= i < |path| && SegmentName(path[i]) == Some(NamedSymbols(path)[k])
    decreases |path|
  {
    match SegmentName(path[0])
    case Some(s) =>
      if k == 0 {
        assert SegmentName(path[0]) == Some(NamedSymbols(path)[0]);
      } else {
        NamedSymbolsFromSegments(path[1..], k - 1);
        var i :| 0 <= i < |path[1..]| && SegmentName(path[1..][i]) == Some(NamedSymbols(path[1..])[k - 1]);
        assert SegmentName(path[i + 1]) == Some(NamedSymbols(path)[k]);
      }
    case None =>
      NamedSymbolsFromSegments(path[1..], k);
      var i :| 0 <= i < |path[1..]| && SegmentName(path[1..][i]) == Some(NamedSymbols(path[1..])[k]);
      assert SegmentName(path[i + 1]) == Some(NamedSymbols(path)[k]);
  }
}

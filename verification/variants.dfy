/** Variant information: the normalised answer to "which type, which
    variant, named or positional fields?" for a construction or
    destructuring site (`get_variant_information`,
    frontend/exporter/src/rustc_utils.rs:11-55). */
module Variants {

  import opened Wrappers
  import opened Identifiers
  import opened Portable
  import opened Host

  const U64Bound: nat := 0x1_0000_0000_0000_0000

  predicate IsAsciiDigit(c: char) {
    '0' <= c <= '9'
  }

  predicate AllDigits(s: string) {
    forall i :: 0 <= i < |s| ==> IsAsciiDigit(s[i])
  }

  /** The value of a decimal numeral, most significant digit first. */
  function DigitsValue(s: string): nat
    requires AllDigits(s)
  {
    if |s| == 0 then 0
    else DigitsValue(s[..|s| - 1]) * 10 + (s[|s| - 1] as int - '0' as int)
  }

  /** Whether `str::parse::<u64>` succeeds: an optional `+`, then at least
      one ASCII digit, denoting a value below 2^64. */
  predicate ParsesAsU64(s: string) {
    var digits := if |s| > 0 && s[0] == '+' then s[1..] else s;
    |digits| > 0 && AllDigits(digits) && DigitsValue(digits) < U64Bound
  }

  /** The inner `is_record` of rustc_utils.rs:18-23: the short-circuiting
      `any` over the fields. A field list is a record iff some field name is
      not a `u64` numeral; in particular an empty list is not a record. */
  function IsRecord(fields: seq<FieldDef>): (b: bool)
    ensures b <==> exists i :: 0 <= i < |fields| && !ParsesAsU64(fields[i].name)
  {
    if |fields| == 0 then false
    else !ParsesAsU64(fields[0].name) || IsRecord(fields[1..])
  }

  /** `AdtDef::all_fields`: the fields of every variant, in order. */
  function AllFields(variants: seq<VariantDef>): seq<FieldDef>
  {
    if |variants| == 0 then []
    else variants[0].fields + AllFields(variants[1..])
  }

  /** The first variant with the given definition identifier. */
  function FindVariant(variants: seq<VariantDef>, id: DefId): (r: Option<nat>)
    ensures r.Some? ==> r.value < |variants| && variants[r.value].defId == id
    ensures r.Some? ==> forall j :: 0 <= j < r.value ==> variants[j].defId != id
    ensures r.None? <==> forall j :: 0 <= j < |variants| ==> variants[j].defId != id
  {
    if |variants| == 0 then None
    else if variants[0].defId == id then Some(0)
    else
      match FindVariant(variants[1..], id)
      case None => None
      case Some(k) => Some(k + 1)
  }

  /** The namespace of a type: its identifier without the last path segment.
      A type with an empty definition path is fatal (rustc_utils.rs:39-53). */
  function TypeNamespace(typ: DefId): (r: Result<DefId, Fatal>)
    ensures r.Ok? <==> |typ.path| > 0
    ensures r.Ok? ==> r.value.krate == typ.krate
    ensures r.Ok? ==> r.value.path + [typ.path[|typ.path| - 1]] == typ.path
  {
    if |typ.path| == 0 then Err(Fatal("Type appears to have no path"))
    else Ok(DefId(typ.krate, typ.path[..|typ.path| - 1]))
  }

  /** The portable path of a type's namespace is a prefix of the type's
      path, missing at most the type's own name. */
  lemma TypeNamespacePath(typ: DefId)
    requires |typ.path| > 0
    ensures var ns := TypeNamespace(typ).value;
            PathOf(typ) == PathOf(ns) + NamedSymbols([typ.path[|typ.path| - 1]])
  {
    var ns := TypeNamespace(typ).value;
    NamedSymbolsAppend(ns.path, [typ.path[|typ.path| - 1]]);
  }

  /** Some field of some variant has a name that is not a `u64` numeral. */
  predicate HasNamedField(variants: seq<VariantDef>) {
    exists i, j :: 0 <= i < |variants| && 0 <= j < |variants[i].fields| && !ParsesAsU64(variants[i].fields[j].name)
  }

  lemma IsRecordAppend(a: seq<FieldDef>, b: seq<FieldDef>)
    ensures IsRecord(a + b) == (IsRecord(a) || IsRecord(b))
  {
    if IsRecord(a + b) {
      var k :| 0 <= k < |a + b| && !ParsesAsU64((a + b)[k].name);
      if k < |a| {
        assert a[k] == (a + b)[k];
      } else {
        assert b[k - |a|] == (a + b)[k];
      }
    }
    if IsRecord(a) {
      var k :| 0 <= k < |a| && !ParsesAsU64(a[k].name);
      assert (a + b)[k] == a[k];
    }
    if IsRecord(b) {
      var k :| 0 <= k < |b| && !ParsesAsU64(b[k].name);
      assert (a + b)[|a| + k] == b[k];
    }
  }

  lemma HasNamedFieldCons(variants: seq<VariantDef>)
    requires |variants| > 0
    ensures HasNamedField(variants) == (IsRecord(variants[0].fields) || HasNamedField(variants[1..]))
  {
    if HasNamedField(variants) {
      var i, j :| 0 <= i < |variants| && 0 <= j < |variants[i].fields| && !ParsesAsU64(variants[i].fields[j].name);
      if i > 0 {
        assert variants[1..][i - 1] == variants[i];
      }
    }
    if HasNamedField(variants[1..]) {
      var i, j :| 0 <= i < |variants[1..]| && 0 <= j < |variants[1..][i].fields| && !ParsesAsU64(variants[1..][i].fields[j].name);
      assert variants[i + 1] == variants[1..][i];
    }
  }

  /** The record test over all fields is the record test of some variant. */
  lemma {:induction false} AllFieldsRecord(variants: seq<VariantDef>)
    ensures IsRecord(AllFields(variants)) <==> HasNamedField(variants)
  {
    if |variants| > 0 {
      IsRecordAppend(variants[0].fields, AllFields(variants[1..]));
      HasNamedFieldCons(variants);
      AllFieldsRecord(variants[1..]);
    }
  }

  /** The variant information of the variant `variant` of `adt`: fatal when
      no variant has that identifier or the type has an empty path. The
      type is a record when it is a struct with a named field; the variant
      is a record when the first variant with that identifier has a named
      field. This is the evidently intended behaviour; see
      `GetVariantInformationAsWritten` for the enum assertion of the source. */
  function GetVariantInformation(adt: AdtDef, variant: DefId): (r: Result<VariantInformations, Fatal>)
    ensures r.Ok? <==> FindVariant(adt.variants, variant).Some? && |adt.did.path| > 0
    ensures r.Ok? ==> r.value.typ == adt.did && r.value.variant == variant
    ensures r.Ok? ==> (r.value.typIsStruct <==> adt.kind == StructKind)
    ensures r.Ok? ==> (r.value.typIsRecord <==> adt.kind == StructKind && HasNamedField(adt.variants))
    ensures r.Ok? ==> var v := adt.variants[FindVariant(adt.variants, variant).value];
                      (r.value.variantIsRecord <==> exists j :: 0 <= j < |v.fields| && !ParsesAsU64(v.fields[j].name))
    ensures r.Ok? ==> r.value.typeNamespace.krate == adt.did.krate
                      && r.value.typeNamespace.path + [adt.did.path[|adt.did.path| - 1]] == adt.did.path
  {
    match FindVariant(adt.variants, variant)
    case None => Err(Fatal("variant not found in its type"))
    case Some(index) =>
      var isStruct := adt.kind == StructKind;
      var ns :- TypeNamespace(adt.did);
      AllFieldsRecord(adt.variants);
      Ok(VariantInformations(
           typeNamespace := ns,
           typ := adt.did,
           variant := variant,
           typIsRecord := isStruct && IsRecord(AllFields(adt.variants)),
           variantIsRecord := IsRecord(adt.variants[index].fields),
           typIsStruct := isStruct))
  }

  /** The source as written first asserts that the type is not an enum
      (rustc_utils.rs:17), which rejects every enum variant. */
  function GetVariantInformationAsWritten(adt: AdtDef, variant: DefId): (r: Result<VariantInformations, Fatal>)
    ensures adt.kind == EnumKind ==> r.Err?
    ensures adt.kind != EnumKind ==> r == GetVariantInformation(adt, variant)
  {
    if adt.kind == EnumKind then Err(Fatal("assertion failed: !adt_def.is_enum()"))
    else GetVariantInformation(adt, variant)
  }

  /** A struct or union has exactly one variant (a compiler invariant). */
  predicate WellFormedAdt(adt: AdtDef) {
    adt.kind != EnumKind ==> |adt.variants| == 1
  }

  /** A record type is a struct. */
  lemma TypIsRecordImpliesStruct(adt: AdtDef, variant: DefId)
    requires GetVariantInformation(adt, variant).Ok?
    ensures var info := GetVariantInformation(adt, variant).value;
            info.typIsRecord ==> info.typIsStruct
  {
  }

  /** For a struct, the type is a record exactly when its one variant is. */
  lemma StructRecordConsistency(adt: AdtDef, variant: DefId)
    requires WellFormedAdt(adt)
    requires GetVariantInformation(adt, variant).Ok?
    ensures var info := GetVariantInformation(adt, variant).value;
            info.typIsStruct ==> |adt.variants| == 1 && info.typIsRecord == info.variantIsRecord
  {
    var info := GetVariantInformation(adt, variant).value;
    if info.typIsStruct {
      assert adt.variants[0].defId == variant;
      assert AllFields(adt.variants) == adt.variants[0].fields + AllFields(adt.variants[1..]);
      assert adt.variants[1..] == [];
    }
  }

  function SegmentsOf(names: seq<string>): seq<DisambiguatedDefPathItem> {
    seq(|names|, i requires 0 <= i < |names| => DisambiguatedDefPathItem(TypeNs(names[i]), 0))
  }

  /** `struct P { x: bool }` built as `P { x: true }`: a struct, a record type
      and a record variant. */
  lemma NamedStructIsRecord()
    ensures var p := DefId("crate", SegmentsOf(["P"]));
            var adt := AdtDef(p, StructKind, [VariantDef(p, [FieldDef(DefId("crate", SegmentsOf(["P", "x"])), "x")])]);
            var r := GetVariantInformation(adt, p);
            r.Ok? && r.value.typIsStruct && r.value.typIsRecord && r.value.variantIsRecord
              && r.value.typeNamespace == DefId("crate", [])
  {
    var p := DefId("crate", SegmentsOf(["P"]));
    var fields := [FieldDef(DefId("crate", SegmentsOf(["P", "x"])), "x")];
    assert !ParsesAsU64(fields[0].name) by {
      assert !IsAsciiDigit('x');
    }
  }

  /** `struct T(u8)`: its field is named `0`, so neither the type nor the
      variant is a record. */
  lemma TupleStructIsNotRecord()
    ensures var t := DefId("crate", SegmentsOf(["T"]));
            var adt := AdtDef(t, StructKind, [VariantDef(t, [FieldDef(DefId("crate", SegmentsOf(["T", "0"])), "0")])]);
            var r := GetVariantInformation(adt, t);
            r.Ok? && r.value.typIsStruct && !r.value.typIsRecord && !r.value.variantIsRecord
  {
    var t := DefId("crate", SegmentsOf(["T"]));
    var fields := [FieldDef(DefId("crate", SegmentsOf(["T", "0"])), "0")];
    assert ParsesAsU64("0") by {
      assert DigitsValue("0") == 0;
    }
    assert AllFields([VariantDef(t, fields)]) == fields;
  }

  /** Counterexample to the enum assertion: the variant `Some` of an
      `Option`-like enum is found and described by the corrected function,
      but rejected as written. */
  lemma EnumVariantRejectedAsWritten()
    ensures var opt := DefId("core", SegmentsOf(["option", "Option"]));
            var some := DefId("core", SegmentsOf(["option", "Option", "Some"]));
            var none := DefId("core", SegmentsOf(["option", "Option", "None"]));
            var adt := AdtDef(opt, EnumKind, [VariantDef(none, []),
                                              VariantDef(some, [FieldDef(DefId("core", SegmentsOf(["option", "Option", "Some", "0"])), "0")])]);
            GetVariantInformationAsWritten(adt, some).Err?
              && GetVariantInformation(adt, some).Ok?
              && GetVariantInformation(adt, some).value.variant == some
              && !GetVariantInformation(adt, some).value.typIsStruct
  {
    var opt := DefId("core", SegmentsOf(["option", "Option"]));
    var some := DefId("core", SegmentsOf(["option", "Option", "Some"]));
    var none := DefId("core", SegmentsOf(["option", "Option", "None"]));
    assert none != some by {
      assert none.path[2].data.typeName != some.path[2].data.typeName;
    }
  }

  /** The corrected function describes every variant of a well-formed enum
      with a non-empty path, and still rejects an unknown variant. */
  lemma EnumVariantInformation(adt: AdtDef, index: nat)
    requires adt.kind == EnumKind && index < |adt.variants| && |adt.did.path| > 0
    ensures var r := GetVariantInformation(adt, adt.variants[index].defId);
            r.Ok? && r.value.variant == adt.variants[index].defId && !r.value.typIsStruct && !r.value.typIsRecord
  {
    assert FindVariant(adt.variants, adt.variants[index].defId).Some?;
  }
}

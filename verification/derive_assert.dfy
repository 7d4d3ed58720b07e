/** The assertion-struct expansion of `#[derive(PureClone)]`: for a struct with named fields it
    emits, per field, a marker struct `_Assert{Type}{field}` whose where-clause asks
    `FieldTy: PureClone`, and one unconditional `unsafe impl PureClone for Type {}`. The grant
    never mentions the type itself, so a self-referential type raises no recursive obligation. */
module DeriveAssert {
  import opened Wrappers
  import opened PureCloneRules
  import opened DeriveStructure

  /** The body of a declaration, as the derive input gives it. */
  datatype Data =
    | StructData(fields: seq<Field>)
    | EnumData(variants: seq<Variant>)
    | UnionData(fields: seq<Field>)

  datatype DeriveInput = DeriveInput(ident: string, params: nat, data: Data)

  /** `struct #ident where #bound;` */
  datatype AssertStruct = AssertStruct(ident: string, bound: Bound)

  /** The expansion; `scoped` says the assertion structs sit inside an anonymous `const _`. */
  datatype Expansion = Expansion(asserts: seq<AssertStruct>, grant: ImplItem, scoped: bool)

  /** Why the expansion panics: `todo!()` for a non-struct, `unwrap` on a positional field. */
  datatype Panic = NotAStruct | UnnamedField(index: nat)

  datatype Outcome = Expanded(expansion: Expansion) | Panicked(reason: Panic)

  /** `format_ident!("_Assert{}{}", name, field)`. */
  function AssertIdent(typeName: string, fieldName: string): (r: string)
    ensures |r| == |"_Assert"| + |typeName| + |fieldName|
    ensures r[..|"_Assert"|] == "_Assert"
    ensures r[|"_Assert"|..|"_Assert"| + |typeName|] == typeName
    ensures r[|"_Assert"| + |typeName|..] == fieldName
  {
    "_Assert" + typeName + fieldName
  }

  /** The index of the first positional field, where the lazy `unwrap` panics. */
  function FirstUnnamed(fields: seq<Field>): (r: Option<nat>)
    ensures r.None? <==> forall i :: 0 <= i < |fields| ==> fields[i].ident.Some?
    ensures r.Some? ==>
      && r.value < |fields| && fields[r.value].ident.None?
      && forall i :: 0 <= i < r.value ==> fields[i].ident.Some?
  {
    if fields == [] then None
    else if fields[0].ident.None? then Some(0)
    else match FirstUnnamed(fields[1..])
      case None => None
      case Some(j) => Some(j + 1)
  }

  /** The unconditional grant: `unsafe impl PureClone for #name {}`, without generics and
      without a where-clause. */
  function UnconditionalGrant(name: string): ImplItem
  {
    ImplItem(true, PureCloneTrait, name, 0, [], NoItems, false)
  }

  /** One assertion per field, in declaration order; every field has a name. */
  function FieldAssertions(name: string, fields: seq<Field>): (r: seq<AssertStruct>)
    requires forall i :: 0 <= i < |fields| ==> fields[i].ident.Some?
    ensures |r| == |fields|
  {
    seq(|fields|, i requires 0 <= i < |fields| =>
      AssertStruct(AssertIdent(name, fields[i].ident.value), Bound(fields[i].ty, PureCloneTrait)))
  }

  /** `expand_derive_pure_clone`, as written: the assertion structs are emitted at the level of
      the module the type is declared in. */
  function ExpandDerivePureClone(item: DeriveInput): (r: Outcome)
    ensures r.Panicked? <==>
      !item.data.StructData? || exists i :: 0 <= i < |item.data.fields| && item.data.fields[i].ident.None?
    ensures r.Panicked? && item.data.StructData? ==>
      && r.reason.UnnamedField? && r.reason.index < |item.data.fields|
      && item.data.fields[r.reason.index].ident.None?
    ensures r.Expanded? ==> var fs := item.data.fields;
      && |r.expansion.asserts| == |fs|
      && (forall i :: 0 <= i < |fs| ==>
            r.expansion.asserts[i].bound == Bound(fs[i].ty, PureCloneTrait)
            && r.expansion.asserts[i].ident == AssertIdent(item.ident, fs[i].ident.value))
      && r.expansion.grant.where_ == [] && r.expansion.grant.isUnsafe
      && r.expansion.grant.trait_ == PureCloneTrait && r.expansion.grant.selfName == item.ident
      && !r.expansion.scoped
  {
    match item.data
    case StructData(fields) =>
      (match FirstUnnamed(fields)
       case Some(j) => Panicked(UnnamedField(j))
       case None => Expanded(Expansion(FieldAssertions(item.ident, fields), UnconditionalGrant(item.ident), false)))
    case EnumData(_) => Panicked(NotAStruct)
    case UnionData(_) => Panicked(NotAStruct)
  }

  /** The names an expansion adds to the module the type is declared in. */
  function ModuleNames(exp: Expansion): (names: set<string>)
    ensures exp.scoped ==> names == {}
    ensures !exp.scoped ==> forall i :: 0 <= i < |exp.asserts| ==> exp.asserts[i].ident in names
  {
    if exp.scoped then {} else set i | 0 <= i < |exp.asserts| :: exp.asserts[i].ident
  }

  /** The expansion compiles in a module that already declares the names `others`: the grant
      names the type without generic arguments, so the type must have no parameters; every
      assertion's where-clause must hold; the supertrait `PureClone: Clone` asks for a `Clone`
      impl of the type, which this expansion does not emit, so it must be supplied separately
      (`extraClone` holds the types with such an impl); and the names the expansion adds to the
      module must not already be taken. */
  predicate Compiles(item: DeriveInput, exp: Expansion, extra: set<Ty>, extraClone: set<Ty>, others: set<string>)
  {
    && item.params == 0
    && Adt(item.ident, []) in extraClone
    && (forall i :: 0 <= i < |exp.asserts| ==> IsPureClone(exp.asserts[i].bound.ty, extra))
    && ModuleNames(exp) * others == {}
  }

  /** The derive succeeds exactly for a non-generic struct with named fields whose field types
      are all PureClone, which has a `Clone` impl from elsewhere, and none of whose assertion
      names is already declared in the module. */
  lemma ExpansionAcceptedIff(item: DeriveInput, extra: set<Ty>, extraClone: set<Ty>, others: set<string>)
    ensures (var r := ExpandDerivePureClone(item); r.Expanded? && Compiles(item, r.expansion, extra, extraClone, others))
        <==> && item.data.StructData? && item.params == 0
             && Adt(item.ident, []) in extraClone
             && (forall i :: 0 <= i < |item.data.fields| ==> item.data.fields[i].ident.Some?)
             && (forall i :: 0 <= i < |item.data.fields| ==> IsPureClone(item.data.fields[i].ty, extra))
             && (forall i :: 0 <= i < |item.data.fields| && item.data.fields[i].ident.Some? ==>
                   AssertIdent(item.ident, item.data.fields[i].ident.value) !in others)
  {
    var r := ExpandDerivePureClone(item);
    if r.Expanded? {
      var fs := item.data.fields;
      var names := ModuleNames(r.expansion);
      assert names == set i | 0 <= i < |fs| :: AssertIdent(item.ident, fs[i].ident.value);
      if names * others == {} {
        forall i | 0 <= i < |fs| && fs[i].ident.Some?
          ensures AssertIdent(item.ident, fs[i].ident.value) !in others
        {
          var n := AssertIdent(item.ident, fs[i].ident.value);
          assert n in names;
          assert n !in names * others;
        }
      }
    }
  }

  /** A rejected field is reported by its own assertion: assertion `i` fails exactly when the type
      of field `i` is not PureClone, and that assertion's name ends in the field's name. */
  lemma FailingAssertionNamesField(item: DeriveInput, extra: set<Ty>, i: nat)
    requires ExpandDerivePureClone(item).Expanded?
    requires i < |item.data.fields|
    ensures var a := ExpandDerivePureClone(item).expansion.asserts[i];
      && (!IsPureClone(a.bound.ty, extra) <==> !IsPureClone(item.data.fields[i].ty, extra))
      && a.ident == AssertIdent(item.ident, item.data.fields[i].ident.value)
  {
  }

  lemma NoConcatCollision(p: string, a: string, b: string)
    requires a != b
    ensures p + a != p + b
  {
    assert a == (p + a)[|p|..];
    assert b == (p + b)[|p|..];
  }

  /** Within one expansion, distinct field names give distinct assertion names. */
  lemma {:induction false} AssertIdentsDistinct(item: DeriveInput)
    requires ExpandDerivePureClone(item).Expanded?
    requires var fs := item.data.fields;
      forall i, j :: 0 <= i < j < |fs| ==> fs[i].ident != fs[j].ident
    ensures var asserts := ExpandDerivePureClone(item).expansion.asserts;
      forall i, j :: 0 <= i < j < |asserts| ==> asserts[i].ident != asserts[j].ident
  {
    var fs := item.data.fields;
    var asserts := ExpandDerivePureClone(item).expansion.asserts;
    forall i, j | 0 <= i < j < |asserts| ensures asserts[i].ident != asserts[j].ident {
      var p := "_Assert" + item.ident;
      assert asserts[i].ident == p + fs[i].ident.value && asserts[j].ident == p + fs[j].ident.value;
      assert fs[i].ident.value != fs[j].ident.value;
      NoConcatCollision(p, fs[i].ident.value, fs[j].ident.value);
    }
  }

  /** As written, two structs declared side by side can receive the same assertion name:
      `struct Foo { bar: i32 }` and `struct Foob { ar: i32 }` both emit `_AssertFoobar`, a
      duplicate definition in their module. */
  lemma AssertNamesCollide()
    ensures var foo := DeriveInput("Foo", 0, StructData([Field(Some("bar"), Prim(I32))]));
      var foob := DeriveInput("Foob", 0, StructData([Field(Some("ar"), Prim(I32))]));
      && ExpandDerivePureClone(foo).Expanded? && ExpandDerivePureClone(foob).Expanded?
      && ModuleNames(ExpandDerivePureClone(foo).expansion) * ModuleNames(ExpandDerivePureClone(foob).expansion) != {}
      && !Compiles(foob, ExpandDerivePureClone(foob).expansion, {}, {Adt("Foob", [])},
                   ModuleNames(ExpandDerivePureClone(foo).expansion))
  {
    var foo := DeriveInput("Foo", 0, StructData([Field(Some("bar"), Prim(I32))]));
    var foob := DeriveInput("Foob", 0, StructData([Field(Some("ar"), Prim(I32))]));
    var e1 := ExpandDerivePureClone(foo).expansion;
    var e2 := ExpandDerivePureClone(foob).expansion;
    assert e1.asserts[0].ident == "_AssertFoobar";
    assert e2.asserts[0].ident == "_AssertFoobar";
    assert "_AssertFoobar" in ModuleNames(e1) * ModuleNames(e2);
  }

  /** The expansion with the assertion structs placed inside an anonymous `const _: () = { .. };`
      (as `underscore_const` does for the other derive), so that their names stay local. */
  function ExpandDerivePureCloneScoped(item: DeriveInput): (r: Outcome)
    ensures r.Panicked? <==> ExpandDerivePureClone(item).Panicked?
    ensures r.Expanded? ==>
      r.expansion == ExpandDerivePureClone(item).expansion.(scoped := true)
  {
    match ExpandDerivePureClone(item)
    case Panicked(p) => Panicked(p)
    case Expanded(e) => Expanded(e.(scoped := true))
  }

  /** Scoped, any two expansions in one module add no clashing names, and the names inside each
      scope stay distinct; a scoped expansion compiles whatever else the module declares,
      exactly when the expansion as written compiles in a module of its own. */
  lemma ScopedNamesNeverClash(item1: DeriveInput, item2: DeriveInput, extra: set<Ty>, extraClone: set<Ty>,
                              others: set<string>)
    requires ExpandDerivePureCloneScoped(item1).Expanded? && ExpandDerivePureCloneScoped(item2).Expanded?
    requires var fs := item1.data.fields;
      forall i, j :: 0 <= i < j < |fs| ==> fs[i].ident != fs[j].ident
    ensures ModuleNames(ExpandDerivePureCloneScoped(item1).expansion)
          * ModuleNames(ExpandDerivePureCloneScoped(item2).expansion) == {}
    ensures var asserts := ExpandDerivePureCloneScoped(item1).expansion.asserts;
      forall i, j :: 0 <= i < j < |asserts| ==> asserts[i].ident != asserts[j].ident
    ensures Compiles(item1, ExpandDerivePureCloneScoped(item1).expansion, extra, extraClone, others)
        <==> Compiles(item1, ExpandDerivePureClone(item1).expansion, extra, extraClone, {})
  {
    AssertIdentsDistinct(item1);
  }
}

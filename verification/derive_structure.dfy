/** `#[derive(PureClone)]`: from a type declaration (its variants and their fields) the derive
    emits a purely structural `Clone` impl and an `unsafe impl PureClone` whose where-clause asks
    `FieldTy: PureClone` of every field. The synstructure `Structure` it works on is a builder
    object that the derive changes step by step. */
module DeriveStructure {
  import opened Wrappers
  import opened PureCloneRules

  /** A field: its name (`None` for a positional field) and its declared type. */
  datatype Field = Field(ident: Option<string>, ty: Ty)

  /** A variant: a struct has one, named after the struct; an enum has one per variant. */
  datatype Variant = Variant(name: string, fields: seq<Field>)

  datatype Trait = CloneTrait | PureCloneTrait

  /** A where-predicate `ty: trait_`. */
  datatype Bound = Bound(ty: Ty, trait_: Trait)

  /** An argument of a constructor in generated code. */
  datatype CloneCall =
    | TraitClone(binding: nat)   // `core::clone::Clone::clone(b_i)`: always the trait's impl
    | MethodClone(binding: nat)  // `b_i.clone()`: an inherent method named `clone` takes precedence

  /** A match arm `Variant(b_0, b_1, ..) => Variant#builds(args ..)`. Arm `k` of a body matches
      variant `k`: `each_variant` emits one arm per variant, in declaration order. */
  datatype Arm = Arm(builds: nat, args: seq<CloneCall>)

  datatype ImplBody = CloneFn(arms: seq<Arm>) | NoItems

  /** A generated impl; `anonConst` says it is wrapped in `const _: () = { .. };`. */
  datatype ImplItem = ImplItem(
    isUnsafe: bool, trait_: Trait, selfName: string, params: nat,
    where_: seq<Bound>, body: ImplBody, anonConst: bool)

  /** synstructure's automatic-bounds mode; `Initial` is the mode of a fresh `Structure`, which
      the derive always replaces before generating an impl. */
  datatype AddBounds = Initial | Fields | NoBounds

  // ---------------------------------------------------------------- the structural clone body

  /** The arm generated for variant `k`: rebuild variant `k` from `Clone::clone` of each binding. */
  function CloneArm(k: nat, v: Variant): Arm
  {
    Arm(k, seq(|v.fields|, i requires 0 <= i < |v.fields| => TraitClone(i)))
  }

  /** `each_variant` + `construct`: one arm per variant, in order. */
  function CloneArms(vs: seq<Variant>): (arms: seq<Arm>)
    ensures |arms| == |vs|
  {
    seq(|vs|, k requires 0 <= k < |vs| => CloneArm(k, vs[k]))
  }

  function FieldTys(v: Variant): (tys: seq<Ty>)
    ensures |tys| == |v.fields|
  {
    seq(|v.fields|, i requires 0 <= i < |v.fields| => v.fields[i].ty)
  }

  /** A value of a declared type: the variant's index and the field values; `Leaf` stands for a
      value of a type that is not a user declaration. */
  datatype Value = Con(tag: nat, fields: seq<Value>) | Leaf(bits: int)

  predicate WellTyped(vs: seq<Variant>, v: Value)
  {
    v.Con? && v.tag < |vs| && |v.fields| == |vs[v.tag].fields|
  }

  /** Evaluates one constructor argument. `dispatch(ty, x)` is `<ty as Clone>::clone(&x)`;
      `inherent(ty, x)` is the result of an inherent `clone` method of `ty`, if it has one. */
  function EvalCall(c: CloneCall, b: seq<Value>, tys: seq<Ty>,
                    dispatch: (Ty, Value) -> Value, inherent: (Ty, Value) -> Option<Value>): Value
    requires c.binding < |b| && |b| == |tys|
  {
    match c
    case TraitClone(i) => dispatch(tys[i], b[i])
    case MethodClone(i) =>
      match inherent(tys[i], b[i])
      case Some(r) => r
      case None => dispatch(tys[i], b[i])
  }

  /** Runs `match *self { arms }` on `v`, whose variant has field types `tys`: the arm for
      variant `v.tag` is the one that matches. */
  function RunClone(arms: seq<Arm>, tys: seq<Ty>, v: Value,
                    dispatch: (Ty, Value) -> Value, inherent: (Ty, Value) -> Option<Value>): Value
    requires v.Con? && v.tag < |arms| && |v.fields| == |tys|
    requires forall j :: 0 <= j < |arms[v.tag].args| ==> arms[v.tag].args[j].binding < |tys|
  {
    var a := arms[v.tag];
    Con(a.builds, seq(|a.args|, j requires 0 <= j < |a.args| => EvalCall(a.args[j], v.fields, tys, dispatch, inherent)))
  }

  /** The generated clone is structural: it rebuilds the same variant, and field `i` of the copy is
      the trait `Clone::clone` of field `i`, for every field in order. */
  lemma GeneratedCloneIsStructural(vs: seq<Variant>, v: Value,
                                   dispatch: (Ty, Value) -> Value, inherent: (Ty, Value) -> Option<Value>)
    requires WellTyped(vs, v)
    ensures var r := RunClone(CloneArms(vs), FieldTys(vs[v.tag]), v, dispatch, inherent);
      && r.Con? && r.tag == v.tag && |r.fields| == |v.fields|
      && forall i :: 0 <= i < |r.fields| ==> r.fields[i] == dispatch(vs[v.tag].fields[i].ty, v.fields[i])
  {
  }

  /** An inherent `clone` method on a field type cannot change what the generated clone does. */
  lemma GeneratedCloneIgnoresInherent(vs: seq<Variant>, v: Value, dispatch: (Ty, Value) -> Value,
                                      inherent1: (Ty, Value) -> Option<Value>,
                                      inherent2: (Ty, Value) -> Option<Value>)
    requires WellTyped(vs, v)
    ensures RunClone(CloneArms(vs), FieldTys(vs[v.tag]), v, dispatch, inherent1)
         == RunClone(CloneArms(vs), FieldTys(vs[v.tag]), v, dispatch, inherent2)
  {
    var tys := FieldTys(vs[v.tag]);
    var a := CloneArms(vs)[v.tag];
    assert forall j :: 0 <= j < |a.args| ==>
      EvalCall(a.args[j], v.fields, tys, dispatch, inherent1) == EvalCall(a.args[j], v.fields, tys, dispatch, inherent2);
  }

  /** Why the derive spells out `Clone::clone(b)`: with method-call syntax an inherent `clone`
      of the field type would run instead of the trait impl. */
  lemma MethodSyntaxReachesInherent()
    ensures var arms := [Arm(0, [MethodClone(0)])];
      var v := Con(0, [Leaf(1)]);
      var tys := [Adt("Foo", [])];
      RunClone(arms, tys, v, (t, x) => x, (t, x) => Some(Leaf(7))) != RunClone(arms, tys, v, (t, x) => x, (t, x) => None)
  {
    var arms := [Arm(0, [MethodClone(0)])];
    var v := Con(0, [Leaf(1)]);
    var tys := [Adt("Foo", [])];
    assert RunClone(arms, tys, v, (t, x) => x, (t, x) => Some(Leaf(7))).fields[0] == Leaf(7);
    assert RunClone(arms, tys, v, (t, x) => x, (t, x) => None).fields[0] == Leaf(1);
  }

  /** `PureClone::pure_clone` of a type whose PureClone impl declares no items: the trait's
      default body, `Clone::clone(self)`, here the generated clone. */
  function PureCloneCall(pureImpl: ImplItem, cloneImpl: ImplItem, vs: seq<Variant>, v: Value,
                         dispatch: (Ty, Value) -> Value, inherent: (Ty, Value) -> Option<Value>): Value
    requires pureImpl.trait_ == PureCloneTrait && pureImpl.body == NoItems
    requires cloneImpl.trait_ == CloneTrait && cloneImpl.body == CloneFn(CloneArms(vs))
    requires WellTyped(vs, v)
  {
    RunClone(cloneImpl.body.arms, FieldTys(vs[v.tag]), v, dispatch, inherent)
  }

  // ---------------------------------------------------------------- the where-clauses

  /** The declared type of every field, variant after variant, field after field. */
  function FieldTypes(vs: seq<Variant>): seq<Ty>
  {
    if vs == [] then [] else FieldTys(vs[0]) + FieldTypes(vs[1..])
  }

  /** One `ty: PureClone` predicate per type, in order. */
  function PureCloneBounds(tys: seq<Ty>): (bs: seq<Bound>)
    ensures |bs| == |tys|
  {
    seq(|tys|, i requires 0 <= i < |tys| => Bound(tys[i], PureCloneTrait))
  }

  /** synstructure's bounds for `AddBounds::Fields`: `ty: tr` for each field type that mentions a
      type parameter. */
  function ParamFieldBounds(tys: seq<Ty>, tr: Trait): seq<Bound>
  {
    if tys == [] then []
    else (if MentionsParam(tys[0]) then [Bound(tys[0], tr)] else []) + ParamFieldBounds(tys[1..], tr)
  }

  function AutoBounds(mode: AddBounds, vs: seq<Variant>, tr: Trait): seq<Bound>
    requires mode != Initial
  {
    if mode == Fields then ParamFieldBounds(FieldTypes(vs), tr) else []
  }

  /** The Clone impl the derive emits. */
  function CloneImplSpec(name: string, params: nat, vs: seq<Variant>): ImplItem
  {
    ImplItem(false, CloneTrait, name, params, AutoBounds(Fields, vs, CloneTrait), CloneFn(CloneArms(vs)), true)
  }

  /** The PureClone impl the derive emits: no automatic bounds, one predicate per field. */
  function PureCloneImplSpec(name: string, params: nat, vs: seq<Variant>): ImplItem
  {
    ImplItem(true, PureCloneTrait, name, params, PureCloneBounds(FieldTypes(vs)), NoItems, true)
  }

  /** The whole output: the Clone impl, then the PureClone impl. */
  function DeriveSpec(name: string, params: nat, vs: seq<Variant>): seq<ImplItem>
  {
    [CloneImplSpec(name, params, vs), PureCloneImplSpec(name, params, vs)]
  }

  /** The where-predicate holds for the type's arguments `args`. */
  predicate BoundHolds(b: Bound, args: seq<Ty>, extra: set<Ty>, extraClone: set<Ty>)
  {
    match b.trait_
    case PureCloneTrait => IsPureClone(Subst(b.ty, args), extra)
    case CloneTrait => IsClone(Subst(b.ty, args), extraClone)
  }

  predicate WhereHolds(bs: seq<Bound>, args: seq<Ty>, extra: set<Ty>, extraClone: set<Ty>)
  {
    forall j :: 0 <= j < |bs| ==> BoundHolds(bs[j], args, extra, extraClone)
  }

  /** Every field of every variant, instantiated at `args`, satisfies `p`. */
  ghost predicate AllFields(vs: seq<Variant>, args: seq<Ty>, p: Ty -> bool)
  {
    forall k, i :: 0 <= k < |vs| && 0 <= i < |vs[k].fields| ==> p(Subst(vs[k].fields[i].ty, args))
  }

  lemma {:induction false} FieldTypesAppend(a: seq<Variant>, b: seq<Variant>)
    ensures FieldTypes(a + b) == FieldTypes(a) + FieldTypes(b)
  {
    if a == [] {
      assert a + b == b;
    } else {
      assert (a + b)[1..] == a[1..] + b;
      FieldTypesAppend(a[1..], b);
    }
  }

  /** Variant-then-field order: field `i` of variant `k` sits at position
      `|FieldTypes(vs[..k])| + i`. */
  lemma FieldTypesAt(vs: seq<Variant>, k: nat, i: nat)
    requires k < |vs| && i < |vs[k].fields|
    ensures |FieldTypes(vs[..k])| + i < |FieldTypes(vs)|
    ensures FieldTypes(vs)[|FieldTypes(vs[..k])| + i] == vs[k].fields[i].ty
  {
    assert vs == vs[..k] + vs[k..];
    FieldTypesAppend(vs[..k], vs[k..]);
    assert FieldTypes(vs[k..]) == FieldTys(vs[k]) + FieldTypes(vs[k + 1..]) by {
      assert vs[k..][1..] == vs[k + 1..];
    }
  }

  /** Every collected type is the type of some field. */
  lemma {:induction false} FieldTypesFrom(vs: seq<Variant>, j: nat)
    requires j < |FieldTypes(vs)|
    ensures exists k, i :: 0 <= k < |vs| && 0 <= i < |vs[k].fields| && FieldTypes(vs)[j] == vs[k].fields[i].ty
  {
    if j < |vs[0].fields| {
      assert FieldTypes(vs)[j] == vs[0].fields[j].ty;
    } else {
      FieldTypesFrom(vs[1..], j - |vs[0].fields|);
      var k, i :| 0 <= k < |vs[1..]| && 0 <= i < |vs[1..][k].fields|
        && FieldTypes(vs[1..])[j - |vs[0].fields|] == vs[1..][k].fields[i].ty;
      assert FieldTypes(vs)[j] == vs[k + 1].fields[i].ty;
    }
  }

  /** The number of fields over all variants. */
  function FieldCount(vs: seq<Variant>): nat
  {
    if vs == [] then 0 else |vs[0].fields| + FieldCount(vs[1..])
  }

  /** One collected type per field, no more and no fewer. */
  lemma {:induction false} FieldTypesCount(vs: seq<Variant>)
    ensures |FieldTypes(vs)| == FieldCount(vs)
  {
    if vs != [] {
      FieldTypesCount(vs[1..]);
    }
  }

  /** The derived grant holds for `Name<args>` exactly when every field type, instantiated at
      `args`, is PureClone; no bound on the type parameters themselves is added. */
  lemma DerivedGrantIff(name: string, params: nat, vs: seq<Variant>, args: seq<Ty>,
                        extra: set<Ty>, extraClone: set<Ty>)
    ensures WhereHolds(PureCloneImplSpec(name, params, vs).where_, args, extra, extraClone)
        <==> AllFields(vs, args, t => IsPureClone(t, extra))
  {
    var tys := FieldTypes(vs);
    var bs := PureCloneImplSpec(name, params, vs).where_;
    if WhereHolds(bs, args, extra, extraClone) {
      forall k, i | 0 <= k < |vs| && 0 <= i < |vs[k].fields|
        ensures IsPureClone(Subst(vs[k].fields[i].ty, args), extra)
      {
        FieldTypesAt(vs, k, i);
        assert BoundHolds(bs[|FieldTypes(vs[..k])| + i], args, extra, extraClone);
      }
    }
    if AllFields(vs, args, t => IsPureClone(t, extra)) {
      forall j | 0 <= j < |bs| ensures BoundHolds(bs[j], args, extra, extraClone) {
        FieldTypesFrom(vs, j);
      }
    }
  }

  lemma {:induction false} FieldlessTypes(vs: seq<Variant>)
    requires forall k :: 0 <= k < |vs| ==> vs[k].fields == []
    ensures FieldTypes(vs) == []
  {
    if vs != [] {
      FieldlessTypes(vs[1..]);
    }
  }

  /** A declaration without fields (a unit struct, a fieldless enum) is granted unconditionally,
      and its clone arms take no arguments. */
  lemma FieldlessGrant(name: string, params: nat, vs: seq<Variant>)
    requires forall k :: 0 <= k < |vs| ==> vs[k].fields == []
    ensures PureCloneImplSpec(name, params, vs).where_ == []
    ensures forall k :: 0 <= k < |vs| ==> CloneArms(vs)[k] == Arm(k, [])
  {
    FieldlessTypes(vs);
  }

  /** No automatic bound on the type parameters: `struct Foo<T> { p: Rc<T> }` is PureClone at
      `T = Cell<i32>`, which is not PureClone itself. */
  lemma NoBoundOnParameters()
    ensures var vs := [Variant("Foo", [Field(Some("p"), RcOf(Param(0)))])];
      var cellTy := Adt("Cell", [Prim(I32)]);
      && !IsPureClone(cellTy, {})
      && WhereHolds(PureCloneImplSpec("Foo", 1, vs).where_, [cellTy], {}, {})
  {
    var vs := [Variant("Foo", [Field(Some("p"), RcOf(Param(0)))])];
    assert FieldTypes(vs) == [RcOf(Param(0))] by {
      assert vs[1..] == [];
    }
  }

  /** Every bound of `AddBounds::Fields` is a field type that mentions a type parameter. */
  lemma {:induction false} ParamFieldBoundsFrom(tys: seq<Ty>, tr: Trait, j: nat)
    requires j < |ParamFieldBounds(tys, tr)|
    ensures var b := ParamFieldBounds(tys, tr)[j];
      b.trait_ == tr && MentionsParam(b.ty) && b.ty in tys
  {
    if MentionsParam(tys[0]) && j == 0 {
    } else {
      var rest := ParamFieldBounds(tys[1..], tr);
      var j' := if MentionsParam(tys[0]) then j - 1 else j;
      ParamFieldBoundsFrom(tys[1..], tr, j');
      assert ParamFieldBounds(tys, tr)[j] == rest[j'];
    }
  }

  /** Conversely, every field type that mentions a type parameter is bounded. */
  lemma {:induction false} ParamFieldBoundsTo(tys: seq<Ty>, tr: Trait, j: nat)
    requires j < |tys| && MentionsParam(tys[j])
    ensures Bound(tys[j], tr) in ParamFieldBounds(tys, tr)
  {
    if j > 0 {
      ParamFieldBoundsTo(tys[1..], tr, j - 1);
      assert tys[1..][j - 1] == tys[j];
    }
  }

  /** The generated Clone impl applies to `Name<args>`: its where-clause holds there, and every
      field type without parameters is Clone, as the clone body's calls require. */
  ghost predicate CloneImplApplies(name: string, params: nat, vs: seq<Variant>, args: seq<Ty>, extraClone: set<Ty>)
  {
    && WhereHolds(CloneImplSpec(name, params, vs).where_, args, {}, extraClone)
    && forall k, i :: 0 <= k < |vs| && 0 <= i < |vs[k].fields| && !MentionsParam(vs[k].fields[i].ty) ==>
         IsClone(vs[k].fields[i].ty, extraClone)
  }

  /** The supertrait holds for derived types: wherever the derived PureClone grant applies, so
      does the derived Clone impl, provided every other PureClone type is Clone. */
  lemma DerivedGrantImpliesClone(name: string, params: nat, vs: seq<Variant>, args: seq<Ty>,
                                 extra: set<Ty>, extraClone: set<Ty>)
    requires extra <= extraClone
    requires WhereHolds(PureCloneImplSpec(name, params, vs).where_, args, extra, extraClone)
    ensures CloneImplApplies(name, params, vs, args, extraClone)
  {
    DerivedGrantIff(name, params, vs, args, extra, extraClone);
    forall k, i | 0 <= k < |vs| && 0 <= i < |vs[k].fields|
      ensures IsClone(Subst(vs[k].fields[i].ty, args), extraClone)
    {
      PureCloneImpliesClone(Subst(vs[k].fields[i].ty, args), extra, extraClone);
    }
    var bs := CloneImplSpec(name, params, vs).where_;
    forall j | 0 <= j < |bs| ensures BoundHolds(bs[j], args, {}, extraClone) {
      ParamFieldBoundsFrom(FieldTypes(vs), CloneTrait, j);
      var jj :| 0 <= jj < |FieldTypes(vs)| && FieldTypes(vs)[jj] == bs[j].ty;
      FieldTypesFrom(vs, jj);
    }
    forall k, i | 0 <= k < |vs| && 0 <= i < |vs[k].fields| && !MentionsParam(vs[k].fields[i].ty)
      ensures IsClone(vs[k].fields[i].ty, extraClone)
    {
      SubstClosed(vs[k].fields[i].ty, args);
    }
  }

  // ---------------------------------------------------------------- the derive, step by step

  /** synstructure's `Structure`: the declaration plus the settings the derive changes. */
  class Structure {
    const name: string
    const params: nat
    const variants: seq<Variant>
    var underscoreConst: bool
    var addBounds: AddBounds
    var extraPredicates: seq<Bound>

    constructor (name: string, params: nat, variants: seq<Variant>)
      ensures this.name == name && this.params == params && this.variants == variants
      ensures !underscoreConst && addBounds == Initial && extraPredicates == []
    {
      this.name := name;
      this.params := params;
      this.variants := variants;
      underscoreConst := false;
      addBounds := Initial;
      extraPredicates := [];
    }

    /** `underscore_const`: wrap every generated impl in an anonymous `const _`. */
    method UnderscoreConst(enabled: bool)
      modifies this
      ensures underscoreConst == enabled
      ensures addBounds == old(addBounds) && extraPredicates == old(extraPredicates)
    {
      underscoreConst := enabled;
    }

    /** `add_bounds`: the automatic bounds of the impls generated from now on. */
    method SetAddBounds(mode: AddBounds)
      modifies this
      ensures addBounds == mode
      ensures underscoreConst == old(underscoreConst) && extraPredicates == old(extraPredicates)
    {
      addBounds := mode;
    }

    /** `add_where_predicate`: one more predicate for every impl generated from now on. */
    method AddWherePredicate(b: Bound)
      modifies this
      ensures extraPredicates == old(extraPredicates) + [b]
      ensures underscoreConst == old(underscoreConst) && addBounds == old(addBounds)
    {
      extraPredicates := extraPredicates + [b];
    }

    /** `gen_impl`: the impl for this type with the current settings; the accumulated
        where-predicates come first, then the automatic bounds of the current mode. */
    method GenImpl(trait_: Trait, isUnsafe: bool, body: ImplBody) returns (item: ImplItem)
      requires addBounds != Initial
      ensures item == ImplItem(isUnsafe, trait_, name, params,
                               extraPredicates + AutoBounds(addBounds, variants, trait_), body, underscoreConst)
    {
      item := ImplItem(isUnsafe, trait_, name, params,
                       extraPredicates + AutoBounds(addBounds, variants, trait_), body, underscoreConst);
    }
  }

  /** `derive_pure_clone`, run on the fresh `Structure` the derive entry point hands it. */
  method DerivePureClone(s: Structure) returns (out: seq<ImplItem>)
    requires s.extraPredicates == []
    modifies s
    ensures out == DeriveSpec(s.name, s.params, s.variants)
    ensures s.extraPredicates == PureCloneBounds(FieldTypes(s.variants))
  {
    s.UnderscoreConst(true);
    var body := CloneArms(s.variants);
    s.SetAddBounds(Fields);
    var cloneImpl := s.GenImpl(CloneTrait, false, CloneFn(body));
    assert cloneImpl == CloneImplSpec(s.name, s.params, s.variants) by {
      assert [] + AutoBounds(Fields, s.variants, CloneTrait) == AutoBounds(Fields, s.variants, CloneTrait);
    }
    s.SetAddBounds(NoBounds);
    var tys := FieldTypes(s.variants);
    for i := 0 to |tys|
      invariant s.extraPredicates == PureCloneBounds(tys[..i])
      invariant s.underscoreConst && s.addBounds == NoBounds
    {
      s.AddWherePredicate(Bound(tys[i], PureCloneTrait));
      assert PureCloneBounds(tys[..i + 1]) == PureCloneBounds(tys[..i]) + [Bound(tys[i], PureCloneTrait)];
    }
    assert tys[..|tys|] == tys;
    var pureCloneImpl := s.GenImpl(PureCloneTrait, true, NoItems);
    assert pureCloneImpl == PureCloneImplSpec(s.name, s.params, s.variants) by {
      assert s.extraPredicates + AutoBounds(NoBounds, s.variants, PureCloneTrait) == s.extraPredicates;
    }
    out := [cloneImpl, pureCloneImpl];
  }

  /** What a derived type's `pure_clone` does: the structural clone of its value. */
  lemma DerivedPureCloneIsStructural(name: string, params: nat, vs: seq<Variant>, v: Value,
                                     dispatch: (Ty, Value) -> Value, inherent: (Ty, Value) -> Option<Value>)
    requires WellTyped(vs, v)
    ensures var out := DeriveSpec(name, params, vs);
      var r := PureCloneCall(out[1], out[0], vs, v, dispatch, inherent);
      && r.Con? && r.tag == v.tag && |r.fields| == |v.fields|
      && forall i :: 0 <= i < |r.fields| ==> r.fields[i] == dispatch(vs[v.tag].fields[i].ty, v.fields[i])
  {
    GeneratedCloneIsStructural(vs, v, dispatch, inherent);
  }
}

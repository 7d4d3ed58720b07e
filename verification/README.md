# clone_cell, modelled in Dafny

`clone_cell` provides a `Cell<T>` whose `get` returns a *clone* of its contents rather than a
bitwise copy, so it works for non-`Copy` types such as `Rc<T>`. This is sound only when the
element type's `clone` cannot reach back into the cell. The crate records that promise in the
unsafe marker trait `PureClone`, a subtrait of `Clone`. It grants the trait to a fixed set of std
types and provides `#[derive(PureClone)]` for user types.

The model has four modules, one per core source file, plus a one-line `Wrappers` module with an
`Option` datatype:

- `PureCloneRules` (`clone_rules.dfy`), for `src/clone.rs`:
  - Rust types are terms (`Ty`).
  - The impl table is a set of derivation rules (`Impl`, `Proves`).
  - A declarative grant predicate (`IsPureClone`) is proved equivalent to the rule-based
    resolver `Resolve`.
  - The rules are coherent: a type has at most one derivation.
  - The supertrait `Clone` is modelled by `IsClone`, which is a reference for std's `Clone`
    impls.
  - User grants (derived or hand-written impls) are a parameter set `extra` of nominal types.
- `CellModel` (`cell.dfy`), for `src/cell.rs`:
  - `Cell` is a class with one mutable `value` field.
  - Destructors are made explicit. A `DropGlue` says, for each value, whether its destructor
    leaves the cell alone or calls `set(w)` on that very cell.
  - `Set` and `Drop` are mutually recursive methods. They are proved against the specification
    functions `AfterDrop` and `DropTrace`, and a ghost trace records every destructor run.
  - Each `set` carries a ghost bound on its own chain of destructor runs (`EndsWithin`), so every
    call whose chain ends in Rust can be made, whatever the element type's other values do.
- `DeriveStructure` (`derive_structure.dfy`), for `derive/src/lib.rs`:
  - The `synstructure::Structure` builder is a class whose settings the derive updates in turn.
  - `DerivePureClone` is proved to produce exactly `DeriveSpec`.
  - The generated `clone` is given value semantics (`RunClone`), with separate trait dispatch
    and inherent-method lookup.
- `DeriveAssert` (`derive_assert.dfy`), for `derive/src/clone.rs`:
  - This is the alternative "assertion struct" expansion, including its panics.
  - `derive/src/lib.rs` does not declare this file as a module, so it is not compiled into the
    crate. It is modelled as written.
  - Unlike the other derive, this expansion emits no `Clone` impl. Its `unsafe impl PureClone`
    compiles only when the type's `Clone` impl (required by the supertrait) is supplied
    separately, and the grant then covers that `Clone`, whatever it does.

## Model

| member | source | states |
|---|---|---|
| PureCloneRules.IsPureClone | src/clone.rs:113-147 | definition of the grant rule set; its properties are in `Resolve`, `ProvesSound`, `UnconditionalGrants`, `WrapperGrants` and `TupleGrants` |
| PureCloneRules.Resolve | src/clone.rs:81-147 | trait resolution finds an impl exactly when the type is granted, and the impl it returns is a valid derivation |
| PureCloneRules.ProvesSound | src/clone.rs:113-147 | every derivation built from the impls establishes the grant |
| PureCloneRules.ProvesUnique | src/clone.rs:113-147 | coherence: two derivations for the same type are identical, so the impls never overlap |
| PureCloneRules.UnconditionalGrants | src/clone.rs:113-124 | every scalar (floats included), `&T` for every `T` including unsized ones, and `Rc<T>`/`Weak<T>` for every `T` are granted; `&mut T` is not |
| PureCloneRules.WrapperGrants | src/clone.rs:126-131 | `Box`, `Option` and `Vec` are granted iff their parameter is, and `Result<T, E>` iff both `T` and `E` are |
| PureCloneRules.TupleGrants | src/clone.rs:133-147 | tuples of arity 0 to 12 are granted iff every component is; longer tuples never are |
| PureCloneRules.PureCloneImpliesClone | src/clone.rs:63 | the supertrait bound `PureClone: Clone` holds for every granted type, given that user grants are on Clone types |
| PureCloneRules.CloneDoesNotImplyPureClone | src/clone.rs:133-147 | the converse fails: a 13-tuple of `i32` is Clone but not PureClone |
| CellModel.Cell.constructor | src/cell.rs:28-32 | accepts any value and destructor behaviour; the new cell holds the given value, and no destructor has run; the element type's `clone` and the program's table of user PureClone grants are fixed with it |
| CellModel.Cell.Replace | src/cell.rs:45-48 | returns the previous contents and installs the new value; no destructor runs |
| CellModel.Cell.Set | src/cell.rs:36-42 | for any call whose destructor chain ends, after `set(v)` the cell holds `AfterDrop(old value, v)`; the destructor runs recorded are exactly `DropTrace(old value, v)`; the first of them destroys the old value while the cell already holds `v` |
| CellModel.Cell.Drop | src/cell.rs:41 | destroying a moved-out value leaves the cell as `AfterDrop` prescribes and appends that value's `DropTrace` |
| CellModel.MoreFuel | src/cell.rs:36-42 | the bound on a chain is only a bound: a larger one gives the same final contents and the same destructor runs |
| CellModel.RankedGlueEnds | src/cell.rs:37-39 | a ranking of values that every re-entrant `set` decreases makes every chain end, within a bound given by the ranks |
| CellModel.DropTraceEnds | src/cell.rs:36-42 | the chain has at most as many destructor runs as its bound; the last one leaves the cell alone, and what it saw is the final contents |
| CellModel.DropTraceLinks | src/cell.rs:37-41 | move-before-drop: each re-entrant destructor finds the value installed just before it, and the next destructor destroys that value while the re-entrant argument is in place |
| CellModel.SetInertValue | src/cell.rs:37-41 | the move-before-drop guarantee: setting a value whose destructor is inert always ends within two destructor runs, whatever the old value's destructor does; the cell then holds that value, unless the old value's destructor re-enters with a different one |
| CellModel.Cell.IntoInner | src/cell.rs:51-53 | yields the contents unchanged, without cloning |
| CellModel.Cell.Get | src/cell.rs:57-63 | offered only when the element type is PureClone under the cell's fixed grant table, which a call cannot choose; returns the element type's fixed `clone` of the contents and leaves the cell unchanged |
| CellModel.ConsecutiveGets | src/cell.rs:57-63 | two consecutive `get`s agree, and both are the clone of the contents |
| CellModel.RcCellExample | src/cell.rs:16-18 | a `Cell<Rc<i32>>` set to `Rc::new(42)` reads back 42 |
| CellModel.BackPointerGlue | tests/cell_tests.rs:76-85 | the destructor of the back-pointing `Foo` calls `set(None)` on its own cell, and `None`'s destructor is inert |
| CellModel.BadDropScenario | tests/cell_tests.rs:74-91 | the re-entrant destructor runs exactly once on the back-pointing value, sees `None` already installed, and the cell is then empty; the exact destructor trace is given |
| CellModel.ReinstallGlue | src/cell.rs:36-42 | a destructor that puts a fresh `Some(Foo)` back into its own cell; `None`'s destructor is inert |
| CellModel.ReinstallScenario | src/cell.rs:36-42 | with that destructor, which no ranking covers, `set(None)` on a cell holding `Some(Foo)` ends after two destructor runs and leaves `Some(Foo)` in the cell |
| CellModel.ReinstallNeverEnds | src/cell.rs:36-42 | with the same destructor, `set(Some(Foo))` on a cell holding `Some(Foo)` never ends, within any bound |
| CellModel.CopyIndependence | tests/cell_tests.rs:25-43 | a `Cell<Rc<i32>>` and a `Cell<Option<Rc<i32>>>` read back 42 and `Some(42)`; after resetting the first to 0, the second still reads `Some(42)` |
| DeriveStructure.CloneArms | derive/src/lib.rs:10-16 | definition of the generated match body, one arm per variant; its properties are in `GeneratedCloneIsStructural` and `FieldlessGrant` |
| DeriveStructure.RunClone | derive/src/lib.rs:19-25 | definition of what the generated `clone` computes; its properties are in `GeneratedCloneIsStructural` and `GeneratedCloneIgnoresInherent` |
| DeriveStructure.GeneratedCloneIsStructural | derive/src/lib.rs:10-26 | the generated `clone` rebuilds the same variant, field by field, each field cloned by its own type's `Clone` impl |
| DeriveStructure.GeneratedCloneIgnoresInherent | derive/src/lib.rs:12-15 | because the call is spelt `core::clone::Clone::clone(b)`, an inherent `clone` method on a field type cannot change the result |
| DeriveStructure.MethodSyntaxReachesInherent | derive/src/lib.rs:14 | with method-call syntax `b.clone()` instead, an inherent `clone` would be called, and the result can differ |
| DeriveStructure.FieldTypes | derive/src/lib.rs:28-32 | definition of the collected field types; its properties are in `FieldTypesAt`, `FieldTypesFrom` and `FieldTypesCount` |
| DeriveStructure.FieldTypesCount | derive/src/lib.rs:28-32 | exactly one type is collected per field of every variant |
| DeriveStructure.FieldTypesAt | derive/src/lib.rs:28-32 | the collected types list, in order, the type of every field of every variant |
| DeriveStructure.FieldTypesFrom | derive/src/lib.rs:28-32 | every collected type is the type of some field |
| DeriveStructure.DerivedGrantIff | derive/src/lib.rs:27-39 | the generated PureClone impl applies at given type arguments iff every field type, instantiated, is PureClone |
| DeriveStructure.FieldlessGrant | derive/src/lib.rs:28-39 | a type without fields gets an unconditional grant, and each variant's clone arm rebuilds it with no arguments |
| DeriveStructure.NoBoundOnParameters | derive/src/lib.rs:27 | no bound is put on the type parameters themselves: `Foo<T> { p: Rc<T> }` is PureClone at `T = Cell<i32>`, which is not |
| DeriveStructure.ParamFieldBoundsFrom | derive/src/lib.rs:17 | every bound of the `AddBounds::Fields` mode is a field type that mentions a type parameter, with the given trait |
| DeriveStructure.ParamFieldBoundsTo | derive/src/lib.rs:17 | conversely, every field type that mentions a type parameter gets a bound with the given trait |
| DeriveStructure.DerivedGrantImpliesClone | derive/src/lib.rs:17-39 | wherever the generated PureClone impl applies, the generated Clone impl applies too, so the supertrait holds |
| DeriveStructure.Structure.constructor | derive/src/lib.rs:6-8 | a fresh structure for the type, with default settings and no extra where-predicates |
| DeriveStructure.Structure.UnderscoreConst | derive/src/lib.rs:9 | sets the wrap-in-`const _` flag and changes nothing else |
| DeriveStructure.Structure.SetAddBounds | derive/src/lib.rs:17 | sets the automatic-bounds mode and changes nothing else |
| DeriveStructure.Structure.AddWherePredicate | derive/src/lib.rs:35 | appends one where-predicate and changes nothing else |
| DeriveStructure.Structure.GenImpl | derive/src/lib.rs:18-26 | the impl carries the accumulated where-predicates followed by the automatic bounds of the current mode |
| DeriveStructure.DerivePureClone | derive/src/lib.rs:8-47 | the output is exactly the Clone impl with per-field `Clone` bounds on parameter-mentioning fields, followed by the unsafe PureClone impl bounded by every field type |
| DeriveStructure.DerivedPureCloneIsStructural | src/clone.rs:66-68 | `pure_clone` on a derived type is the default method, i.e. the generated structural clone |
| DeriveAssert.AssertIdent | derive/src/clone.rs:14 | the assertion name is `_Assert`, then the type name, then the field name |
| DeriveAssert.FirstUnnamed | derive/src/clone.rs:9 | finds the first positional field, where the lazy `unwrap` panics, or none when every field is named |
| DeriveAssert.FieldAssertions | derive/src/clone.rs:13-19 | definition of the per-field assertions; its properties are in `ExpandDerivePureClone` and `FailingAssertionNamesField` |
| DeriveAssert.ExpandDerivePureClone | derive/src/clone.rs:5-28 | panics for enums, unions and positional fields; otherwise emits one assertion per field bounding its type by PureClone, and an unconditional unsafe grant for the type |
| DeriveAssert.ExpansionAcceptedIff | derive/src/clone.rs:5-28 | the expansion succeeds and compiles iff the input is a non-generic struct with named fields whose types are all PureClone, which has a `Clone` impl supplied elsewhere, and none of whose assertion names is already declared in the module |
| DeriveAssert.FailingAssertionNamesField | derive/src/clone.rs:13-19 | assertion `i` fails exactly when field `i`'s type is not PureClone, and its name ends in that field's name |
| DeriveAssert.AssertIdentsDistinct | derive/src/clone.rs:14 | within one expansion, distinct field names give distinct assertion names |
| DeriveAssert.ModuleNames | derive/src/clone.rs:22-26 | an unscoped expansion adds every assertion name to the enclosing module; a scoped one adds none |
| DeriveAssert.AssertNamesCollide | derive/src/clone.rs:14 | two structs in one module can be given the same assertion name, and the second expansion then does not compile next to the first |
| DeriveAssert.ExpandDerivePureCloneScoped | derive/src/clone.rs:22-26 | the corrected expansion panics in the same cases and emits the same items, placed inside an anonymous `const _` |
| DeriveAssert.ScopedNamesNeverClash | derive/src/clone.rs:22-26 | scoped expansions never clash in the module and names stay distinct within one expansion; a scoped expansion compiles whatever the module already declares, exactly when the expansion as written compiles in a module of its own |

## Left out

- `Cell::take`, `swap` and the other std `Cell` methods are not defined in `src/cell.rs`. The
  test's `take()` is modelled as `replace(None)`.
- `UnsafeCell`, `#[repr(transparent)]` and `Cell: !Sync` are left out. The model is
  single-threaded, and the class field stands for the unsafe slot.
- A destructor that reaches a *different* cell, or does more than one `set`, is not modelled.
  `DropGlue` covers the inert destructor and the single re-entrant `set` on the same cell.
- CellModel.Cell.Set: requires that the destructor chain of this call ends within a ghost bound
  `n` (`EndsWithin`), and so does `Drop`. Only a call whose chain never ends is excluded, such as
  `ReinstallNeverEnds`. In Rust that call overflows the stack, and the model does not capture
  that.
- CellModel.Cell.Get: the element type's `clone` is a pure function fixed with the cell. This models what
  PureClone promises, not what an arbitrary (unsound) `unsafe impl` could do. Dafny's `T` and
  the ghost Rust type `elemTy` are not tied together. The grant table `grants` is fixed when the
  cell is built, but the model does not check it against the impls the program declares.
- CellModel.Cell.IntoInner: Dafny cannot consume an object, so the cell is not invalidated
  afterwards, and the final contents' destructor on cell teardown is not modelled.
- `Arc` (used by a test) is not among the crate's grants in `src/clone.rs`. It is left out.
- The `Rc`-cycle test and `Weak::upgrade` are left out. Reference counting is not modelled: an
  `Rc` is represented by its pointee.
- Float values are left out. `f32`/`f64` appear only as granted types.
- The token-level plumbing is left out: `syn` parsing, `quote!` output, spans, `decl_derive!`,
  `lib_path()`, and `src/lib.rs`'s re-exports. Generated items are datatypes, not token streams.
  Paths are not resolved. In particular, the assertion structs of `derive/src/clone.rs` name the
  trait by the bare `PureClone` (line 17), so they also need the trait in scope where the derive
  is used, whereas the grant uses the full path. `DeriveAssert.Compiles` assumes it is in scope.
- UI tests (`tests/ui/*.rs`) are left out. Deriving both `Clone` and `PureClone`, or combining
  the derive with a hand-written `Clone`, yields two conflicting `Clone` impls. The model shows
  this only in that `DeriveSpec` always contains a Clone impl.
- `synstructure`'s removal of duplicate bounds, its handling of unions, and its initial
  `AddBounds` mode are left out.
- DeriveStructure.Structure.GenImpl: requires a bounds mode other than the initial one. The
  derive always sets one before generating.
- DeriveStructure.DerivePureClone: requires a structure with no extra where-predicates yet, as
  `decl_derive!` hands it over.
- DeriveAssert.ExpansionAcceptedIff: the user's `Clone` impl, which the unconditional grant
  vouches for, is modelled only by its existence (`extraClone`). Whether it is actually pure is
  not modelled.
- Trait-solver cycles for self-referential types (the where-clause `Self-typed field: PureClone`)
  are left out. `DerivedGrantIff` treats the type's own grant as a member of `extra`.

## Findings

| source | as written | input that shows it | evidently intended | confidence | as-written member | corrected member |
|---|---|---|---|---|---|---|
| derive/src/clone.rs:14 | each assertion struct is named `_Assert{Type}{field}` and emitted at the level of the enclosing module | `struct Foo { bar: i32 }` and `struct Foob { ar: i32 }` in one module both emit `struct _AssertFoobar`, a duplicate definition | assertion names private to each expansion, e.g. inside an anonymous `const _` as the other derive does | low: not executed, and the file is not declared as a module by derive/src/lib.rs | DeriveAssert.AssertNamesCollide | DeriveAssert.ExpandDerivePureCloneScoped |

`DeriveAssert.ScopedNamesNeverClash` proves the intended property of the corrected expansion.

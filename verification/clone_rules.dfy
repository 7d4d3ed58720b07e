/** The PureClone capability: which Rust types may be cloned while they sit in a `Cell`.
    Types are modelled as terms; the trait `PureClone` and its built-in impls become a
    recursive predicate (`IsPureClone`) and, independently, a set of impl rules whose
    derivation trees (`Impl`) are what a trait solver would find. */
module PureCloneRules {
  import opened Wrappers

  /** The scalar types given an unconditional grant. */
  datatype Scalar =
    | Usize | U8 | U16 | U32 | U64 | U128
    | Isize | I8 | I16 | I32 | I64 | I128
    | F32 | F64
    | Bool | Char

  /** A Rust type, as far as trait resolution is concerned. */
  datatype Ty =
    | Prim(scalar: Scalar)
    | RefOf(pointee: Ty)                 // &T
    | RefMutOf(pointee: Ty)              // &mut T
    | RcOf(pointee: Ty)                  // Rc<T>
    | WeakOf(pointee: Ty)                // rc::Weak<T>
    | BoxOf(inner: Ty)                   // Box<T>
    | OptionOf(inner: Ty)                // Option<T>
    | ResultOf(ok: Ty, err: Ty)          // Result<T, E>
    | VecOf(inner: Ty)                   // Vec<T>
    | TupleOf(elems: seq<Ty>)            // (A, B, ...), of any arity
    | StrTy                              // str (unsized)
    | SliceOf(elem: Ty)                  // [T] (unsized)
    | Param(index: nat)                  // the index-th type parameter of a generic declaration
    | Adt(name: string, args: seq<Ty>)   // any other nominal type: user types, String, Arc, Cell, ...

  /** The largest tuple arity with a PureClone impl. */
  const MaxTupleArity: nat := 12

  /** `T: PureClone`. `extra` holds the types outside the built-in rule set that carry an impl
      of their own (a derived one, or a hand-audited `unsafe impl`). */
  predicate IsPureClone(t: Ty, extra: set<Ty>)
  {
    match t
    case Prim(_) => true
    case RefOf(_) => true
    case RefMutOf(_) => false
    case RcOf(_) => true
    case WeakOf(_) => true
    case BoxOf(a) => IsPureClone(a, extra)
    case OptionOf(a) => IsPureClone(a, extra)
    case ResultOf(a, b) => IsPureClone(a, extra) && IsPureClone(b, extra)
    case VecOf(a) => IsPureClone(a, extra)
    case TupleOf(es) =>
      |es| <= MaxTupleArity && forall i :: 0 <= i < |es| ==> IsPureClone(es[i], extra)
    case StrTy => false
    case SliceOf(_) => false
    case Param(_) => false
    case Adt(_, _) => t in extra
  }

  /** `T: Clone` for the same type terms, as the standard library grants it; `extraClone` holds
      the other types with a Clone impl. Only used to check the supertrait `PureClone: Clone`. */
  predicate IsClone(t: Ty, extraClone: set<Ty>)
  {
    match t
    case Prim(_) => true
    case RefOf(_) => true
    case RefMutOf(_) => false
    case RcOf(_) => true
    case WeakOf(_) => true
    case BoxOf(a) =>
      IsClone(a, extraClone) || a == StrTy || (a.SliceOf? && IsClone(a.elem, extraClone))
    case OptionOf(a) => IsClone(a, extraClone)
    case ResultOf(a, b) => IsClone(a, extraClone) && IsClone(b, extraClone)
    case VecOf(a) => IsClone(a, extraClone)
    case TupleOf(es) => forall i :: 0 <= i < |es| ==> IsClone(es[i], extraClone)
    case StrTy => false
    case SliceOf(_) => false
    case Param(_) => false
    case Adt(_, _) => t in extraClone
  }

  /** The impls of the `impls` module, one constructor per impl; a value is a derivation tree
      whose children discharge the impl's where-clause. */
  datatype Impl =
    | ScalarImpl
    | SharedRefImpl
    | RcImpl
    | WeakImpl
    | BoxImpl(inner: Impl)
    | OptionImpl(inner: Impl)
    | ResultImpl(ok: Impl, err: Impl)
    | VecImpl(inner: Impl)
    | TupleImpl(elems: seq<Impl>)
    | ExtraImpl

  /** The derivation `d` establishes `t: PureClone`: its impl's header matches `t` and every
      where-predicate has a sub-derivation. */
  predicate Proves(d: Impl, t: Ty, extra: set<Ty>)
  {
    match d
    case ScalarImpl => t.Prim?
    case SharedRefImpl => t.RefOf?
    case RcImpl => t.RcOf?
    case WeakImpl => t.WeakOf?
    case BoxImpl(di) => t.BoxOf? && Proves(di, t.inner, extra)
    case OptionImpl(di) => t.OptionOf? && Proves(di, t.inner, extra)
    case ResultImpl(dok, derr) => t.ResultOf? && Proves(dok, t.ok, extra) && Proves(derr, t.err, extra)
    case VecImpl(di) => t.VecOf? && Proves(di, t.inner, extra)
    case TupleImpl(ds) =>
      && t.TupleOf?
      && |ds| == |t.elems| <= MaxTupleArity
      && forall i :: 0 <= i < |ds| ==> Proves(ds[i], t.elems[i], extra)
    case ExtraImpl => t.Adt? && t in extra
  }

  /** Trait resolution: finds the derivation for `t: PureClone`, if there is one. */
  function Resolve(t: Ty, extra: set<Ty>): (r: Option<Impl>)
    ensures r.Some? <==> IsPureClone(t, extra)
    ensures r.Some? ==> Proves(r.value, t, extra)
  {
    match t
    case Prim(_) => Some(ScalarImpl)
    case RefOf(_) => Some(SharedRefImpl)
    case RefMutOf(_) => None
    case RcOf(_) => Some(RcImpl)
    case WeakOf(_) => Some(WeakImpl)
    case BoxOf(a) =>
      var ra := Resolve(a, extra);
      if ra.Some? then Some(BoxImpl(ra.value)) else None
    case OptionOf(a) =>
      var ra := Resolve(a, extra);
      if ra.Some? then Some(OptionImpl(ra.value)) else None
    case ResultOf(a, b) =>
      var ra := Resolve(a, extra);
      var rb := Resolve(b, extra);
      if ra.Some? && rb.Some? then Some(ResultImpl(ra.value, rb.value)) else None
    case VecOf(a) =>
      var ra := Resolve(a, extra);
      if ra.Some? then Some(VecImpl(ra.value)) else None
    case TupleOf(es) =>
      var rs := seq(|es|, i requires 0 <= i < |es| => Resolve(es[i], extra));
      assert forall i :: 0 <= i < |es| ==> (rs[i].Some? <==> IsPureClone(es[i], extra));
      if |es| <= MaxTupleArity && forall i :: 0 <= i < |rs| ==> rs[i].Some? then
        Some(TupleImpl(seq(|rs|, i requires 0 <= i < |rs| && rs[i].Some? => rs[i].value)))
      else
        None
    case StrTy => None
    case SliceOf(_) => None
    case Param(_) => None
    case Adt(_, _) => if t in extra then Some(ExtraImpl) else None
  }

  /** Every derivation the impl rules admit establishes the grant. */
  lemma {:induction false} ProvesSound(d: Impl, t: Ty, extra: set<Ty>)
    requires Proves(d, t, extra)
    ensures IsPureClone(t, extra)
  {
    match d
    case BoxImpl(di) => ProvesSound(di, t.inner, extra);
    case OptionImpl(di) => ProvesSound(di, t.inner, extra);
    case ResultImpl(dok, derr) => ProvesSound(dok, t.ok, extra); ProvesSound(derr, t.err, extra);
    case VecImpl(di) => ProvesSound(di, t.inner, extra);
    case TupleImpl(ds) =>
      forall i | 0 <= i < |ds| ensures IsPureClone(t.elems[i], extra) {
        ProvesSound(ds[i], t.elems[i], extra);
      }
    case _ =>
  }

  /** Coherence: the impls never overlap, so a type has at most one derivation. */
  lemma {:induction false} ProvesUnique(d1: Impl, d2: Impl, t: Ty, extra: set<Ty>)
    requires Proves(d1, t, extra) && Proves(d2, t, extra)
    ensures d1 == d2
  {
    match d1
    case BoxImpl(a) => ProvesUnique(a, d2.inner, t.inner, extra);
    case OptionImpl(a) => ProvesUnique(a, d2.inner, t.inner, extra);
    case ResultImpl(a, b) => ProvesUnique(a, d2.ok, t.ok, extra); ProvesUnique(b, d2.err, t.err, extra);
    case VecImpl(a) => ProvesUnique(a, d2.inner, t.inner, extra);
    case TupleImpl(ds) =>
      forall i | 0 <= i < |ds| ensures ds[i] == d2.elems[i] {
        ProvesUnique(ds[i], d2.elems[i], t.elems[i], extra);
      }
    case _ =>
  }

  /** The unconditional grants: every scalar, every shared reference whatever its pointee
      (unsized pointees included), and `Rc`/`Weak` whatever their pointee. */
  lemma UnconditionalGrants(s: Scalar, t: Ty, extra: set<Ty>)
    ensures IsPureClone(Prim(s), extra)
    ensures IsPureClone(RefOf(t), extra) && IsPureClone(RefOf(StrTy), extra)
    ensures IsPureClone(RcOf(t), extra) && IsPureClone(WeakOf(t), extra)
    ensures !IsPureClone(RefMutOf(t), extra)
  {
  }

  /** The conditional grants: a wrapper is granted exactly when all its parameters are. */
  lemma WrapperGrants(a: Ty, b: Ty, extra: set<Ty>)
    ensures IsPureClone(BoxOf(a), extra) <==> IsPureClone(a, extra)
    ensures IsPureClone(OptionOf(a), extra) <==> IsPureClone(a, extra)
    ensures IsPureClone(VecOf(a), extra) <==> IsPureClone(a, extra)
    ensures IsPureClone(ResultOf(a, b), extra) <==> IsPureClone(a, extra) && IsPureClone(b, extra)
  {
  }

  /** Tuples up to arity 12 are granted exactly when every component is; longer ones never. */
  lemma TupleGrants(es: seq<Ty>, extra: set<Ty>)
    ensures |es| <= MaxTupleArity ==>
      (IsPureClone(TupleOf(es), extra) <==> forall i :: 0 <= i < |es| ==> IsPureClone(es[i], extra))
    ensures |es| > MaxTupleArity ==> !IsPureClone(TupleOf(es), extra)
  {
  }

  /** The supertrait `PureClone: Clone`: when every extra PureClone impl sits on a Clone type,
      every PureClone type is Clone. */
  lemma {:induction false} PureCloneImpliesClone(t: Ty, extra: set<Ty>, extraClone: set<Ty>)
    requires extra <= extraClone
    requires IsPureClone(t, extra)
    ensures IsClone(t, extraClone)
  {
    match t
    case BoxOf(a) => PureCloneImpliesClone(a, extra, extraClone);
    case OptionOf(a) => PureCloneImpliesClone(a, extra, extraClone);
    case ResultOf(a, b) => PureCloneImpliesClone(a, extra, extraClone); PureCloneImpliesClone(b, extra, extraClone);
    case VecOf(a) => PureCloneImpliesClone(a, extra, extraClone);
    case TupleOf(es) =>
      forall i | 0 <= i < |es| ensures IsClone(es[i], extraClone) {
        PureCloneImpliesClone(es[i], extra, extraClone);
      }
    case _ =>
  }

  /** The converse fails: a 13-tuple of `i32` is Clone but not PureClone. */
  lemma CloneDoesNotImplyPureClone(extra: set<Ty>, extraClone: set<Ty>)
    ensures var t := TupleOf(seq(MaxTupleArity + 1, _ => Prim(I32)));
      IsClone(t, extraClone) && !IsPureClone(t, extra)
  {
  }

  /** Replaces every type parameter `Param(i)` by `args[i]` (parameters beyond `args` stay). */
  function Subst(t: Ty, args: seq<Ty>): Ty
  {
    match t
    case Param(i) => if i < |args| then args[i] else t
    case RefOf(a) => RefOf(Subst(a, args))
    case RefMutOf(a) => RefMutOf(Subst(a, args))
    case RcOf(a) => RcOf(Subst(a, args))
    case WeakOf(a) => WeakOf(Subst(a, args))
    case BoxOf(a) => BoxOf(Subst(a, args))
    case OptionOf(a) => OptionOf(Subst(a, args))
    case ResultOf(a, b) => ResultOf(Subst(a, args), Subst(b, args))
    case VecOf(a) => VecOf(Subst(a, args))
    case TupleOf(es) => TupleOf(seq(|es|, i requires 0 <= i < |es| => Subst(es[i], args)))
    case SliceOf(a) => SliceOf(Subst(a, args))
    case Adt(n, targs) => Adt(n, seq(|targs|, i requires 0 <= i < |targs| => Subst(targs[i], args)))
    case _ => t
  }

  /** The type mentions some type parameter. */
  predicate MentionsParam(t: Ty)
  {
    match t
    case Param(_) => true
    case RefOf(a) => MentionsParam(a)
    case RefMutOf(a) => MentionsParam(a)
    case RcOf(a) => MentionsParam(a)
    case WeakOf(a) => MentionsParam(a)
    case BoxOf(a) => MentionsParam(a)
    case OptionOf(a) => MentionsParam(a)
    case ResultOf(a, b) => MentionsParam(a) || MentionsParam(b)
    case VecOf(a) => MentionsParam(a)
    case TupleOf(es) => exists i :: 0 <= i < |es| && MentionsParam(es[i])
    case SliceOf(a) => MentionsParam(a)
    case Adt(_, targs) => exists i :: 0 <= i < |targs| && MentionsParam(targs[i])
    case _ => false
  }

  /** Substitution leaves a type without parameters unchanged. */
  lemma {:induction false} SubstClosed(t: Ty, args: seq<Ty>)
    requires !MentionsParam(t)
    ensures Subst(t, args) == t
  {
    match t
    case RefOf(a) => SubstClosed(a, args);
    case RefMutOf(a) => SubstClosed(a, args);
    case RcOf(a) => SubstClosed(a, args);
    case WeakOf(a) => SubstClosed(a, args);
    case BoxOf(a) => SubstClosed(a, args);
    case OptionOf(a) => SubstClosed(a, args);
    case ResultOf(a, b) => SubstClosed(a, args); SubstClosed(b, args);
    case VecOf(a) => SubstClosed(a, args);
    case SliceOf(a) => SubstClosed(a, args);
    case TupleOf(es) =>
      forall i | 0 <= i < |es| ensures Subst(es[i], args) == es[i] {
        SubstClosed(es[i], args);
      }
    case Adt(n, targs) =>
      forall i | 0 <= i < |targs| ensures Subst(targs[i], args) == targs[i] {
        SubstClosed(targs[i], args);
      }
    case _ =>
  }
}

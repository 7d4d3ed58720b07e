/** The interior-mutable `Cell<T>`: one always-initialised slot, whose `get` clones the contents
    and is offered only when the element type is PureClone. Running a destructor is modelled
    explicitly, so that a destructor that calls back into the same cell can be followed. */
module CellModel {
  import opened Wrappers
  import opened PureCloneRules

  /** What the destructor of a value does to the cell the value was taken out of. */
  datatype DropAction<T> =
    | Inert              // nothing observable on the cell
    | SetSelf(target: T) // calls `set(target)` on that very cell

  /** The destructor behaviour of the element type. */
  datatype DropGlue<!T> = DropGlue(action: T -> DropAction<T>)

  /** A destructor inert on every value, as for `i32`, `Rc<i32>` and the like. */
  function NoDrop<T(!new)>(): (g: DropGlue<T>)
    ensures forall x :: g.action(x) == Inert
  {
    DropGlue(_ => Inert)
  }

  /** Destroying `x`, moved out of the cell while the cell holds `cur`, finishes after at most
      `n` destructor runs: each re-entrant `set(w)` moves `cur` out, installs `w` and destroys
      `cur` in turn. */
  ghost predicate EndsWithin<T(!new)>(g: DropGlue<T>, x: T, cur: T, n: nat)
    decreases n
  {
    n > 0 &&
      match g.action(x)
      case Inert => true
      case SetSelf(w) => EndsWithin(g, cur, w, n - 1)
  }

  /** The contents of the cell once destroying `x` has finished, `x` having been moved out of
      the cell while the cell holds `cur`. */
  ghost function AfterDrop<T(!new)>(g: DropGlue<T>, x: T, cur: T, n: nat): T
    requires EndsWithin(g, x, cur, n)
    decreases n
  {
    match g.action(x)
    case Inert => cur
    case SetSelf(w) => AfterDrop(g, cur, w, n - 1)
  }

  /** The destructor runs caused by destroying `x` while the cell holds `cur`, in order. */
  ghost function DropTrace<T(!new)>(g: DropGlue<T>, x: T, cur: T, n: nat): seq<DropEvent<T>>
    requires EndsWithin(g, x, cur, n)
    decreases n
  {
    [Dropped(x, cur)] +
      match g.action(x)
      case Inert => []
      case SetSelf(w) => DropTrace(g, cur, w, n - 1)
  }

  /** One destructor run: the value destroyed and what the cell held while it ran. */
  datatype DropEvent<T> = Dropped(value: T, seen: T)

  /** The bound is only a bound: more fuel describes the same chain, the same final contents and
      the same destructor runs. */
  lemma {:induction false} MoreFuel<T(!new)>(g: DropGlue<T>, x: T, cur: T, n: nat, m: nat)
    requires EndsWithin(g, x, cur, n) && n <= m
    ensures EndsWithin(g, x, cur, m)
    ensures AfterDrop(g, x, cur, m) == AfterDrop(g, x, cur, n)
    ensures DropTrace(g, x, cur, m) == DropTrace(g, x, cur, n)
    decreases n
  {
    match g.action(x)
    case Inert =>
    case SetSelf(w) => MoreFuel(g, cur, w, n - 1, m - 1);
  }

  /** A sufficient condition for every chain to end: a ranking of the values that each
      re-entrant `set` decreases. */
  lemma {:induction false} RankedGlueEnds<T(!new)>(g: DropGlue<T>, rank: T -> nat, x: T, cur: T)
    requires forall y :: g.action(y).SetSelf? ==> rank(g.action(y).target) < rank(y)
    ensures EndsWithin(g, x, cur, rank(x) + rank(cur) + 1)
    decreases rank(x) + rank(cur)
  {
    match g.action(x)
    case Inert =>
    case SetSelf(w) =>
      RankedGlueEnds(g, rank, cur, w);
      MoreFuel(g, cur, w, rank(cur) + rank(w) + 1, rank(x) + rank(cur));
  }

  /** The move-before-drop guarantee: setting a value whose own destructor is inert always ends
      within two destructor runs, whatever the old value's destructor does, and the cell then
      holds that value unless the old value's destructor re-entered with another one. */
  lemma SetInertValue<T(!new)>(g: DropGlue<T>, prev: T, v: T)
    requires g.action(v) == Inert
    ensures EndsWithin(g, prev, v, 2)
    ensures AfterDrop(g, prev, v, 2) == (if g.action(prev).SetSelf? then g.action(prev).target else v)
    ensures g.action(prev) == Inert || g.action(prev) == SetSelf(v) ==> AfterDrop(g, prev, v, 2) == v
  {
    match g.action(prev)
    case Inert =>
    case SetSelf(w) =>
      assert EndsWithin(g, v, w, 1);
  }

  /** The last destructor in the chain leaves the cell alone, and what it saw in the cell is
      what the cell finally holds. */
  lemma {:induction false} DropTraceEnds<T(!new)>(g: DropGlue<T>, x: T, cur: T, n: nat)
    requires EndsWithin(g, x, cur, n)
    ensures var tr := DropTrace(g, x, cur, n);
      && 0 < |tr| <= n
      && tr[|tr| - 1].seen == AfterDrop(g, x, cur, n)
      && g.action(tr[|tr| - 1].value) == Inert
    decreases n
  {
    match g.action(x)
    case Inert =>
    case SetSelf(w) => DropTraceEnds(g, cur, w, n - 1);
  }

  /** Move-before-drop: every destructor in the chain that re-enters `set(w)` finds the cell
      holding the value installed just before it ran, and the next destructor destroys that
      value while the cell already holds `w`. No destructor ever sees the value being destroyed
      still in the cell unless that same value was installed again. */
  lemma {:induction false} DropTraceLinks<T(!new)>(g: DropGlue<T>, x: T, cur: T, n: nat)
    requires EndsWithin(g, x, cur, n)
    ensures var tr := DropTrace(g, x, cur, n);
      && tr[0] == Dropped(x, cur)
      && forall k :: 0 <= k < |tr| - 1 ==>
           g.action(tr[k].value).SetSelf? &&
           tr[k + 1] == Dropped(tr[k].seen, g.action(tr[k].value).target)
    decreases n
  {
    match g.action(x)
    case Inert =>
    case SetSelf(w) =>
      DropTraceLinks(g, cur, w, n - 1);
      var tr := DropTrace(g, x, cur, n);
      assert tr == [Dropped(x, cur)] + DropTrace(g, cur, w, n - 1);
  }

  /** A mutable memory location. */
  class Cell<T(!new)> {
    /** The slot; always initialised. */
    var value: T
    /** How the element type's destructor behaves. */
    const glue: DropGlue<T>
    /** The element type's `Clone::clone`, a pure function of the value it is given. */
    const clone: T -> T
    /** The Rust element type, for the `T: PureClone` bound of `get`. */
    ghost const elemTy: Ty
    /** The user declarations the program grants PureClone (derived or hand-written impls): the
        program's impl table, fixed with the cell's type and not chosen per call. */
    ghost const grants: set<Ty>
    /** Every destructor run caused by this cell, in order. */
    ghost var drops: seq<DropEvent<T>>

    /** `Cell::new`. */
    constructor (v: T, glue: DropGlue<T>, clone: T -> T, ghost elemTy: Ty, ghost grants: set<Ty>)
      ensures value == v && this.glue == glue && this.clone == clone
      ensures this.elemTy == elemTy && this.grants == grants && drops == []
    {
      value := v;
      this.glue := glue;
      this.clone := clone;
      this.elemTy := elemTy;
      this.grants := grants;
      drops := [];
    }

    /** `Cell::replace`: installs `v` and hands back the previous contents; nothing is
        destroyed. */
    method Replace(v: T) returns (prev: T)
      modifies this
      ensures prev == old(value) && value == v
      ensures drops == old(drops)
    {
      prev := value;
      value := v;
    }

    /** `Cell::set`: `replace`, then destroy the old value. The destructor runs with `v`
        already installed, and any `set` it makes on this cell acts on `v`. The ghost `n` bounds
        the destructor runs of this call. */
    method Set(v: T, ghost n: nat)
      requires EndsWithin(glue, value, v, n)
      modifies this
      ensures value == AfterDrop(glue, old(value), v, n)
      ensures drops == old(drops) + DropTrace(glue, old(value), v, n)
      ensures drops[|old(drops)|] == Dropped(old(value), v)
      decreases n, 1
    {
      var prev := Replace(v);
      Drop(prev, n);
    }

    /** `drop(old)`: runs the destructor of `x`, which has already left the slot. */
    method Drop(x: T, ghost n: nat)
      requires EndsWithin(glue, x, value, n)
      modifies this
      ensures value == AfterDrop(glue, x, old(value), n)
      ensures drops == old(drops) + DropTrace(glue, x, old(value), n)
      decreases n, 0
    {
      drops := drops + [Dropped(x, value)];
      match glue.action(x)
      case Inert =>
      case SetSelf(w) =>
        Set(w, n - 1);
    }

    /** `Cell::into_inner`: the contents, moved out without cloning. */
    method IntoInner() returns (r: T)
      ensures r == value
    {
      r := value;
    }

    /** `Cell::get`: a clone of the contents, made by the element type's `Clone::clone`, which
        is a pure function here and so cannot reach the cell. Only offered when the element
        type is PureClone; the slot is left as it was. */
    method Get() returns (r: T)
      requires IsPureClone(elemTy, grants)
      ensures r == clone(value)
    {
      r := clone(value);
    }
  }

  /** `get` neither changes the cell nor depends on anything but its contents: two consecutive
      reads agree, and both are the clone of the contents. */
  method ConsecutiveGets<T(!new)>(c: Cell<T>) returns (r1: T, r2: T)
    requires IsPureClone(c.elemTy, c.grants)
    ensures r1 == r2 && r1 == c.clone(c.value)
  {
    r1 := c.Get();
    r2 := c.Get();
  }

  /** The documentation example: a `Cell<Rc<i32>>` set to `Rc::new(42)` reads back 42. The
      `Rc` is represented by its pointee, and cloning it yields the same pointee. */
  method RcCellExample() returns (r: int)
    ensures r == 42
  {
    var x := new Cell(0, NoDrop(), p => p, RcOf(Prim(I32)), {});
    x.Set(42, 1);
    r := x.Get();
  }

  /** A cell holding `Option<Foo>` where `Foo`'s destructor calls `set(None)` on that very cell
      through its back-pointer. */
  datatype Slot = Vacant | Occupied

  function BackPointerGlue(): (g: DropGlue<Slot>)
    ensures g.action(Occupied) == SetSelf(Vacant) && g.action(Vacant) == Inert
  {
    DropGlue(s => if s == Occupied then SetSelf(Vacant) else Inert)
  }

  /** The re-entrant destructor scenario: `set(None)` on a cell holding the back-pointing value
      runs that value's destructor, whose own `set(None)` finds `None` already installed; the
      back-pointing value is destroyed exactly once, and `take()` afterwards yields `None`. */
  method BadDropScenario() returns (takenIsNone: bool, ghost trace: seq<DropEvent<Slot>>)
    ensures takenIsNone
    ensures trace == [Dropped(Vacant, Occupied), Dropped(Occupied, Vacant), Dropped(Vacant, Vacant)]
  {
    var fooTy := Adt("Foo", []);
    var c := new Cell(Vacant, BackPointerGlue(), s => s, OptionOf(fooTy), {});
    c.Set(Occupied, 1);
    c.Set(Vacant, 2);
    var taken := c.Replace(Vacant);
    takenIsNone := taken == Vacant;
    trace := c.drops;
  }

  /** A `Foo` whose destructor puts a fresh `Some(Foo)` back into its own cell. */
  function ReinstallGlue(): (g: DropGlue<Slot>)
    ensures g.action(Occupied) == SetSelf(Occupied) && g.action(Vacant) == Inert
  {
    DropGlue(s => if s == Occupied then SetSelf(Occupied) else Inert)
  }

  /** No ranking covers this destructor, yet `set(None)` on a cell holding `Some(Foo)` ends: the
      destructor re-installs `Some(Foo)`, and only the inert `None` is destroyed after it. */
  method ReinstallScenario() returns (finalIsSome: bool, ghost trace: seq<DropEvent<Slot>>)
    ensures finalIsSome
    ensures trace == [Dropped(Occupied, Vacant), Dropped(Vacant, Occupied)]
  {
    var c := new Cell(Occupied, ReinstallGlue(), s => s, OptionOf(Adt("Foo", [])), {});
    c.Set(Vacant, 2);
    finalIsSome := c.value == Occupied;
    trace := c.drops;
  }

  /** With the same destructor, `set(Some(Foo))` on a cell holding `Some(Foo)` never ends: each
      destructor run installs another `Foo` and destroys the one it displaced. */
  lemma {:induction false} ReinstallNeverEnds(n: nat)
    ensures !EndsWithin(ReinstallGlue(), Occupied, Occupied, n)
  {
    if n > 0 {
      ReinstallNeverEnds(n - 1);
    }
  }

  /** Clones handed out by `get` are independent of later `set`s: a `Cell<Rc<i32>>` and a
      `Cell<Option<Rc<i32>>>` sharing the pointee 42; the first is reset to 0 while the second
      still reads `Some(42)`. */
  method CopyIndependence() returns (first: int, firstOther: Option<int>, later: int, other: Option<int>)
    ensures first == 42 && firstOther == Some(42)
    ensures later == 0 && other == Some(42)
  {
    var x := new Cell(0, NoDrop(), p => p, RcOf(Prim(I32)), {});
    var y := new Cell(None, NoDrop(), o => o, OptionOf(RcOf(Prim(I32))), {});
    x.Set(42, 1);
    y.Set(Some(42), 1);
    first := x.Get();
    firstOther := y.Get();
    x.Set(0, 1);
    later := x.Get();
    other := y.Get();
  }
}

/** Ownership of the runtime's PointerValues by the Pointer and Value objects of a C++ program. */
module Handles {
  import opened Bytes

  datatype Kind = Undefined | Null | Boolean(b: bool) | Number(n: double) | SymbolKind | StringKind | ObjectKind

  /** ValueKind, in the order of its declaration. */
  function KindNumber(k: Kind): nat {
    match k
    case Undefined => 0
    case Null => 1
    case Boolean(_) => 2
    case Number(_) => 3
    case SymbolKind => 4
    case StringKind => 5
    case ObjectKind => 6
  }

  const POINTER_KIND := KindNumber(SymbolKind)

  predicate HoldsPointer(k: Kind) {
    k.SymbolKind? || k.StringKind? || k.ObjectKind?
  }

  /** The kinds that hold a pointer are those from PointerKind on. */
  lemma PointerKinds(k: Kind)
    ensures HoldsPointer(k) <==> KindNumber(k) >= POINTER_KIND
  {
  }

  /** A PointerValue's name; None is a null pointer. */
  type Handle = Option<nat>

  /** A live C++ object: a Pointer (String, Object, ...), or a Value with its tag. */
  datatype Holder =
    | Pointer(ptr: Handle)
    | Value(kind: Kind, ptr: Handle)

  /** The live C++ objects, the PointerValues made and not invalidated, the names of those invalidated, in order, and how
      many have been made. */
  datatype World = World(vars: map<nat, Holder>, live: set<nat>, invalidated: seq<nat>, made: nat)

  const EMPTY: World := World(map[], {}, [], 0)

  // ---------------------------------------------------------------- what the operations do

  /** ~Pointer. */
  function Invalidate(w: World, p: Handle): World {
    if p.Some? then w.(live := w.live - {p.value}, invalidated := w.invalidated + [p.value]) else w
  }

  /** The runtime makes a PointerValue for `v`. */
  function Make(w: World, v: nat, holder: Holder): World {
    var name := w.made;
    w.(vars := w.vars[v := holder.(ptr := Some(name))], live := w.live + {name}, made := name + 1)
  }

  /** A clone of `p` for `v`; the clone of a null pointer is null. */
  function Clone(w: World, v: nat, holder: Holder, p: Handle): World {
    if p.Some? then Make(w, v, holder) else w.(vars := w.vars[v := holder.(ptr := None)])
  }

  datatype Step =
    /** The runtime creates a string or an object. */
    | Create(v: nat)
    /** Pointer(Pointer&&). */
    | MovePointer(v: nat, from: nat)
    /** A clone made by the runtime. */
    | ClonePointer(v: nat, from: nat)
    /** Pointer::operator=; `v` and `from` can be the same. */
    | AssignPointer(v: nat, from: nat)
    | DestroyPointer(v: nat)
    /** Value of something that is no pointer. */
    | Scalar(v: nat, kind: Kind)
    /** Value(T&&) and Value(Runtime&, const T&). */
    | Wrap(v: nat, from: nat, kind: Kind)
    | WrapClone(v: nat, from: nat, kind: Kind)
    /** Value(Value&&) and Value(Runtime&, const Value&). */
    | MoveValue(v: nat, from: nat)
    | CloneValue(v: nat, from: nat)
    /** Value::operator=; `v` and `from` can be the same. */
    | AssignValue(v: nat, from: nat)
    | DestroyValue(v: nat)
    /** getString, asObject, ... of an rvalue: the tag stays. */
    | Unwrap(v: nat, from: nat)
    /** The same of an lvalue. */
    | UnwrapClone(v: nat, from: nat)

  predicate IsPointer(w: World, v: nat) {
    v in w.vars && w.vars[v].Pointer?
  }

  predicate IsValue(w: World, v: nat) {
    v in w.vars && w.vars[v].Value?
  }

  predicate IsPointerValue(w: World, v: nat) {
    IsValue(w, v) && HoldsPointer(w.vars[v].kind)
  }

  predicate Enabled(w: World, a: Step) {
    match a
    case Create(v) => v !in w.vars
    case MovePointer(v, from) => v !in w.vars && IsPointer(w, from)
    case ClonePointer(v, from) => v !in w.vars && IsPointer(w, from)
    case AssignPointer(v, from) => IsPointer(w, v) && IsPointer(w, from)
    case DestroyPointer(v) => IsPointer(w, v)
    case Scalar(v, kind) => v !in w.vars && !HoldsPointer(kind)
    case Wrap(v, from, kind) => v !in w.vars && IsPointer(w, from) && HoldsPointer(kind)
    case WrapClone(v, from, kind) => v !in w.vars && IsPointer(w, from) && HoldsPointer(kind)
    case MoveValue(v, from) => v !in w.vars && IsValue(w, from)
    case CloneValue(v, from) => v !in w.vars && IsValue(w, from)
    case AssignValue(v, from) => IsValue(w, v) && IsValue(w, from)
    case DestroyValue(v) => IsValue(w, v)
    case Unwrap(v, from) => v !in w.vars && IsPointerValue(w, from)
    case UnwrapClone(v, from) => v !in w.vars && IsPointerValue(w, from)
  }

  /** ~Value. */
  function Drop(w: World, h: Holder): World {
    if h.Pointer? || HoldsPointer(h.kind) then Invalidate(w, h.ptr) else w
  }

  function Do(w: World, a: Step): World
    requires Enabled(w, a)
  {
    match a
    case Create(v) => Make(w, v, Pointer(None))
    case MovePointer(v, from) => w.(vars := w.vars[v := w.vars[from]][from := Pointer(None)])
    case ClonePointer(v, from) => Clone(w, v, Pointer(None), w.vars[from].ptr)
    case AssignPointer(v, from) =>
      var d := Invalidate(w, w.vars[v].ptr);
      d.(vars := d.vars[v := d.vars[from]][from := Pointer(None)])
    case DestroyPointer(v) =>
      var d := Invalidate(w, w.vars[v].ptr);
      d.(vars := d.vars - {v})
    case Scalar(v, kind) => w.(vars := w.vars[v := Value(kind, None)])
    case Wrap(v, from, kind) => w.(vars := w.vars[v := Value(kind, w.vars[from].ptr)][from := Pointer(None)])
    case WrapClone(v, from, kind) => Clone(w, v, Value(kind, None), w.vars[from].ptr)
    case MoveValue(v, from) => w.(vars := w.vars[v := w.vars[from]][from := Value(Undefined, None)])
    case CloneValue(v, from) => Clone(w, v, w.vars[from], w.vars[from].ptr)
    case AssignValue(v, from) =>
      var d := Drop(w, w.vars[v]);
      d.(vars := d.vars[v := d.vars[from]][from := Value(Undefined, None)])
    case DestroyValue(v) =>
      var d := Drop(w, w.vars[v]);
      d.(vars := d.vars - {v})
    case Unwrap(v, from) =>
      w.(vars := w.vars[v := Pointer(w.vars[from].ptr)][from := w.vars[from].(ptr := None)])
    case UnwrapClone(v, from) => Clone(w, v, Pointer(None), w.vars[from].ptr)
  }

  predicate Runs(w: World, run: seq<Step>)
    decreases |run|
  {
    |run| > 0 ==> Enabled(w, run[0]) && Runs(Do(w, run[0]), run[1..])
  }

  function After(w: World, run: seq<Step>): World
    requires Runs(w, run)
    decreases |run|
  {
    if |run| == 0 then w else After(Do(w, run[0]), run[1..])
  }

  // ---------------------------------------------------------------- the invariant

  /** Each live PointerValue has the one owner `owner` names, nobody else holds anything, only Values whose tag says so
      hold a pointer, and every PointerValue made is live or has been invalidated, once. */
  ghost predicate Linear(w: World, owner: map<nat, nat>) {
    && owner.Keys == w.live
    && (forall p | p in owner :: owner[p] in w.vars && w.vars[owner[p]].ptr == Some(p))
    && (forall v | v in w.vars && w.vars[v].ptr.Some? ::
          w.vars[v].ptr.value in owner && owner[w.vars[v].ptr.value] == v)
    && (forall v | v in w.vars && w.vars[v].Value? && w.vars[v].ptr.Some? :: HoldsPointer(w.vars[v].kind))
    && (forall p: nat :: p < w.made <==> p in w.live || p in w.invalidated)
    && (forall p | p in w.live :: p !in w.invalidated)
    && (forall i, j | 0 <= i < j < |w.invalidated| :: w.invalidated[i] != w.invalidated[j])
  }

  /** Who owns what after a step. */
  function NextOwner(w: World, owner: map<nat, nat>, a: Step): map<nat, nat>
    requires Enabled(w, a)
  {
    match a
    case Create(v) => owner[w.made := v]
    case Scalar(_, _) => owner
    case ClonePointer(v, from) => if w.vars[from].ptr.Some? then owner[w.made := v] else owner
    case WrapClone(v, from, _) => if w.vars[from].ptr.Some? then owner[w.made := v] else owner
    case CloneValue(v, from) => if w.vars[from].ptr.Some? then owner[w.made := v] else owner
    case UnwrapClone(v, from) => if w.vars[from].ptr.Some? then owner[w.made := v] else owner
    case DestroyPointer(v) => Freed(owner, w.vars[v].ptr)
    case DestroyValue(v) => Freed(owner, w.vars[v].ptr)
    case AssignPointer(v, from) => Assigned(w, owner, v, from)
    case AssignValue(v, from) => Assigned(w, owner, v, from)
    case _ => if w.vars[a.from].ptr.Some? then owner[w.vars[a.from].ptr.value := a.v] else owner
  }

  function Freed(owner: map<nat, nat>, p: Handle): map<nat, nat> {
    if p.Some? then owner - {p.value} else owner
  }

  function Assigned(w: World, owner: map<nat, nat>, v: nat, from: nat): map<nat, nat>
    requires v in w.vars && from in w.vars
  {
    var freed := Freed(owner, w.vars[v].ptr);
    if v != from && w.vars[from].ptr.Some? then freed[w.vars[from].ptr.value := v] else freed
  }

  lemma CloneKeeps(w: World, owner: map<nat, nat>, v: nat, h: Holder, p: Handle)
    requires Linear(w, owner) && v !in w.vars && (h.Value? && p.Some? ==> HoldsPointer(h.kind))
    ensures Linear(Clone(w, v, h, p), if p.Some? then owner[w.made := v] else owner)
  {
  }

  /** A pointer moves from one object to another that holds none. */
  lemma MoveKeeps(w: World, owner: map<nat, nat>, v: nat, from: nat, hv: Holder, hf: Holder)
    requires Linear(w, owner) && from in w.vars && v != from && (v in w.vars ==> w.vars[v].ptr.None?)
    requires hv.ptr == w.vars[from].ptr && hf.ptr.None? && (hv.Value? && hv.ptr.Some? ==> HoldsPointer(hv.kind))
    ensures Linear(w.(vars := w.vars[v := hv][from := hf]),
                   if hv.ptr.Some? then owner[hv.ptr.value := v] else owner)
  {
  }

  lemma FreeOne(w: World, owner: map<nat, nat>, v: nat, h: Holder, p: nat)
    requires Linear(w, owner) && v in w.vars && h.ptr.None? && w.vars[v].ptr == Some(p)
    ensures Linear(Invalidate(w, Some(p)).(vars := w.vars[v := h]), owner - {p})
  {
    assert owner[p] == v;
    var d := Invalidate(w, Some(p));
    assert forall q :: q in d.invalidated <==> q in w.invalidated || q == p;
  }

  /** An object gives up its pointer, and may take on another tag. */
  lemma FreeKeeps(w: World, owner: map<nat, nat>, v: nat, h: Holder)
    requires Linear(w, owner) && v in w.vars && h.ptr.None?
    ensures var d := Invalidate(w, w.vars[v].ptr);
      Linear(d.(vars := d.vars[v := h]), Freed(owner, w.vars[v].ptr))
  {
    if w.vars[v].ptr.Some? {
      FreeOne(w, owner, v, h, w.vars[v].ptr.value);
    }
  }

  lemma RemoveKeeps(w: World, owner: map<nat, nat>, v: nat)
    requires Linear(w, owner) && v in w.vars && w.vars[v].ptr.None?
    ensures Linear(w.(vars := w.vars - {v}), owner)
  {
  }

  lemma DestroyKeeps(w: World, owner: map<nat, nat>, v: nat)
    requires Linear(w, owner) && v in w.vars
    ensures var d := Invalidate(w, w.vars[v].ptr);
      Linear(d.(vars := d.vars - {v}), Freed(owner, w.vars[v].ptr))
  {
    var d := Invalidate(w, w.vars[v].ptr);
    var e := d.(vars := d.vars[v := Pointer(None)]);
    FreeKeeps(w, owner, v, Pointer(None));
    RemoveKeeps(e, Freed(owner, w.vars[v].ptr), v);
    assert e.vars - {v} == d.vars - {v};
  }

  lemma TagFits(w: World, owner: map<nat, nat>, v: nat)
    requires Linear(w, owner) && v in w.vars
    ensures w.vars[v].Value? && w.vars[v].ptr.Some? ==> HoldsPointer(w.vars[v].kind)
  {
  }

  lemma PutTwice(vars: map<nat, Holder>, v: nat, from: nat, x: Holder, y: Holder, z: Holder)
    ensures v == from ==> vars[v := x][from := z] == vars[v := z]
    ensures vars[v := y][v := x][from := z] == vars[v := x][from := z]
  {
  }

  /** Assignment, to itself too: the old pointer is invalidated, the new one moved in. */
  lemma AssignKeeps(w: World, owner: map<nat, nat>, v: nat, from: nat, empty: Holder)
    requires Linear(w, owner) && v in w.vars && from in w.vars && empty.ptr.None?
    ensures var d := Invalidate(w, w.vars[v].ptr);
      Linear(d.(vars := d.vars[v := d.vars[from]][from := empty]), Assigned(w, owner, v, from))
  {
    hide Linear;
    var d := Invalidate(w, w.vars[v].ptr);
    FreeKeeps(w, owner, v, empty);
    TagFits(w, owner, from);
    PutTwice(d.vars, v, from, w.vars[from], empty, empty);
    if v != from {
      MoveKeeps(d.(vars := d.vars[v := empty]), Freed(owner, w.vars[v].ptr), v, from, w.vars[from], empty);
    }
  }

  /** A Value without a pointer tag has nothing to invalidate. */
  lemma DropIsInvalidate(w: World, owner: map<nat, nat>, v: nat)
    requires Linear(w, owner) && v in w.vars
    ensures Drop(w, w.vars[v]) == Invalidate(w, w.vars[v].ptr)
  {
  }

  lemma StepKeeps(w: World, owner: map<nat, nat>, a: Step)
    requires Linear(w, owner) && Enabled(w, a)
    ensures Linear(Do(w, a), NextOwner(w, owner, a))
  {
    match a
    case Create(v) => CloneKeeps(w, owner, v, Pointer(None), Some(0));
    case ClonePointer(v, from) => CloneKeeps(w, owner, v, Pointer(None), w.vars[from].ptr);
    case WrapClone(v, from, kind) => CloneKeeps(w, owner, v, Value(kind, None), w.vars[from].ptr);
    case CloneValue(v, from) => CloneKeeps(w, owner, v, w.vars[from], w.vars[from].ptr);
    case UnwrapClone(v, from) => CloneKeeps(w, owner, v, Pointer(None), w.vars[from].ptr);
    case Scalar(v, kind) => ScalarKeeps(w, owner, v, kind);
    case DestroyPointer(v) => DestroyKeeps(w, owner, v);
    case DestroyValue(v) =>
      DropIsInvalidate(w, owner, v);
      DestroyKeeps(w, owner, v);
    case AssignPointer(v, from) => AssignKeeps(w, owner, v, from, Pointer(None));
    case AssignValue(v, from) =>
      DropIsInvalidate(w, owner, v);
      AssignKeeps(w, owner, v, from, Value(Undefined, None));
    case MovePointer(v, from) => MoveKeeps(w, owner, v, from, w.vars[from], Pointer(None));
    case Wrap(v, from, kind) => MoveKeeps(w, owner, v, from, Value(kind, w.vars[from].ptr), Pointer(None));
    case MoveValue(v, from) => MoveKeeps(w, owner, v, from, w.vars[from], Value(Undefined, None));
    case Unwrap(v, from) =>
      MoveKeeps(w, owner, v, from, Pointer(w.vars[from].ptr), w.vars[from].(ptr := None));
  }

  lemma ScalarKeeps(w: World, owner: map<nat, nat>, v: nat, kind: Kind)
    requires Linear(w, owner) && v !in w.vars
    ensures Linear(w.(vars := w.vars[v := Value(kind, None)]), owner)
  {
  }

  lemma {:induction false} Always(w: World, owner: map<nat, nat>, run: seq<Step>) returns (after: map<nat, nat>)
    requires Linear(w, owner) && Runs(w, run)
    ensures Linear(After(w, run), after)
    decreases |run|
  {
    after := owner;
    if |run| > 0 {
      StepKeeps(w, owner, run[0]);
      after := Always(Do(w, run[0]), NextOwner(w, owner, run[0]), run[1..]);
    }
  }

  // ---------------------------------------------------------------- main results

  /** The objects that hold `p`. */
  function Owners(w: World, p: nat): set<nat> {
    set v | v in w.vars && w.vars[v].ptr == Some(p)
  }

  /** Whatever a program does with its handles, self-assignment included: a live PointerValue has exactly one owner, an
      invalidated one has none, and none is invalidated twice; and when all objects are gone every PointerValue that was
      made has been invalidated. */
  lemma OneOwner(run: seq<Step>)
    requires Runs(EMPTY, run)
    ensures var w := After(EMPTY, run);
      && (forall p | p in w.live :: exists v :: Owners(w, p) == {v})
      && (forall p | p in w.invalidated :: Owners(w, p) == {} && p !in w.live)
      && (forall i, j | 0 <= i < j < |w.invalidated| :: w.invalidated[i] != w.invalidated[j])
      && (w.vars == map[] ==> w.live == {} && forall p: nat | p < w.made :: p in w.invalidated)
  {
    var owner := Always(EMPTY, map[], run);
    var w := After(EMPTY, run);
    forall p | p in w.live ensures exists v :: Owners(w, p) == {v} {
      assert p in owner;
      assert Owners(w, p) == {owner[p]};
    }
    assert forall p, v | p in w.invalidated && v in w.vars :: w.vars[v].ptr != Some(p);
    assert forall p | p in w.live :: owner[p] in w.vars;
  }

  // ---------------------------------------------------------------- the code, step by step

  predicate Agrees(vars: map<nat, Holder>, was: map<nat, Holder>) {
    forall v | v in was :: v in vars && vars[v] == was[v]
  }

  /** `before` and `after` are what the runtime has of a world. In every world in which the objects of `was` are as it says,
      `a` is possible only if it leads to a world in which those of `now` are as it says and those of `gone` are no more. */
  ghost predicate Does(before: World, a: Step, after: World, was: map<nat, Holder>, now: map<nat, Holder>, gone: set<nat>) {
    forall vars | Agrees(vars, was) && Enabled(before.(vars := vars), a) ::
      Do(before.(vars := vars), a) == after.(vars := vars + now - gone)
  }

  /** The same of a step that leaves the runtime alone. */
  ghost predicate DoesAlone(a: Step, was: map<nat, Holder>, now: map<nat, Holder>) {
    forall b: World :: Does(b, a, b, was, now, {})
  }

  lemma CreateDoes(b: World, v: nat)
    ensures Does(b, Create(v), Make(b, v, Pointer(None)), map[], map[v := Pointer(Some(b.made))], {})
  {
    forall vars: map<nat, Holder> | Agrees(vars, map[])
      ensures vars[v := Pointer(Some(b.made))] == vars + map[v := Pointer(Some(b.made))] - {}
    {
    }
  }

  /** The steps that clone. */
  function Source(a: Step): Option<nat> {
    match a
    case ClonePointer(_, from) => Some(from)
    case WrapClone(_, from, _) => Some(from)
    case CloneValue(_, from) => Some(from)
    case UnwrapClone(_, from) => Some(from)
    case _ => None
  }

  /** What becomes of the clone. */
  function Cloned(a: Step, source: Holder): Holder {
    match a
    case WrapClone(_, _, kind) => Value(kind, None)
    case CloneValue(_, _) => source
    case _ => Pointer(None)
  }

  lemma CloneStep(w: World, a: Step, source: Holder)
    requires Source(a).Some? && Enabled(w, a) && Agrees(w.vars, map[Source(a).value := source])
    ensures Do(w, a) == Clone(w, a.v, Cloned(a, source), source.ptr)
  {
    assert Source(a).value in map[Source(a).value := source];
  }

  lemma CloneDoes(b: World, a: Step, source: Holder, q: Handle)
    requires Source(a).Some? && q == (if source.ptr.Some? then Some(b.made) else None)
    ensures var h := Cloned(a, source);
      Does(b, a, Clone(b, a.v, h, source.ptr), map[Source(a).value := source], map[a.v := h.(ptr := q)], {})
  {
    hide Do, Cloned;
    var h := Cloned(a, source);
    forall vars: map<nat, Holder> | Agrees(vars, map[Source(a).value := source]) && Enabled(b.(vars := vars), a)
      ensures Do(b.(vars := vars), a) == Clone(b, a.v, h, source.ptr).(vars := vars + map[a.v := h.(ptr := q)] - {})
    {
      CloneStep(b.(vars := vars), a, source);
      assert vars[a.v := h.(ptr := q)] == vars + map[a.v := h.(ptr := q)] - {};
    }
  }

  /** The steps by which a pointer moves to a new object. */
  predicate Moves(a: Step, was: Holder, v: Holder, from: Holder) {
    match a
    case MovePointer(_, _) => v == was && from == Pointer(None)
    case Wrap(_, _, kind) => v == Value(kind, was.ptr) && from == Pointer(None)
    case MoveValue(_, _) => v == was && from == Value(Undefined, None)
    case Unwrap(_, _) => v == Pointer(was.ptr) && from == was.(ptr := None)
    case _ => false
  }

  lemma MoveStep(w: World, a: Step, was: Holder, v: Holder, from: Holder)
    requires Moves(a, was, v, from) && Enabled(w, a) && Agrees(w.vars, map[a.from := was])
    ensures Do(w, a) == w.(vars := w.vars[a.v := v][a.from := from])
  {
    assert a.from in map[a.from := was];
  }

  lemma MoveDoesIn(b: World, a: Step, was: Holder, v: Holder, from: Holder)
    requires Moves(a, was, v, from)
    ensures Does(b, a, b, map[a.from := was], map[a.v := v][a.from := from], {})
  {
    assert a.MovePointer? || a.Wrap? || a.MoveValue? || a.Unwrap?;
    hide Do, Moves;
    var holds, now := map[a.from := was], map[a.v := v][a.from := from];
    forall vars: map<nat, Holder> | Agrees(vars, holds) && Enabled(b.(vars := vars), a)
      ensures Do(b.(vars := vars), a) == b.(vars := vars + now - {})
    {
      MoveStep(b.(vars := vars), a, was, v, from);
      assert vars[a.v := v][a.from := from] == vars + now - {};
    }
  }

  lemma MoveDoes(a: Step, was: Holder, v: Holder, from: Holder)
    requires Moves(a, was, v, from)
    ensures DoesAlone(a, map[a.from := was], map[a.v := v][a.from := from])
  {
    var holds, now := map[a.from := was], map[a.v := v][a.from := from];
    forall b: World ensures Does(b, a, b, holds, now, {}) {
      MoveDoesIn(b, a, was, v, from);
    }
  }

  lemma PutBoth(vars: map<nat, Holder>, v: nat, from: nat, was: Holder, other: Holder, empty: Holder)
    requires (v == from ==> was == other) && Agrees(vars, map[v := was][from := other])
    ensures v in vars && from in vars && vars[v] == was && vars[from] == other
    ensures vars[v := other][from := empty] == vars + map[v := other][from := empty] - {}
  {
    assert v in map[v := was][from := other] && from in map[v := was][from := other];
  }

  lemma AssignPointerDoes(b: World, v: nat, from: nat, was: Holder, other: Holder)
    requires (v == from ==> was == other) && was.Pointer?
    ensures Does(b, AssignPointer(v, from), Invalidate(b, was.ptr), map[v := was][from := other],
                 map[v := other][from := Pointer(None)], {})
  {
    forall vars: map<nat, Holder> | Agrees(vars, map[v := was][from := other])
      ensures v in vars && from in vars && vars[v] == was && vars[from] == other
      ensures vars[v := other][from := Pointer(None)] == vars + map[v := other][from := Pointer(None)] - {}
    {
      PutBoth(vars, v, from, was, other, Pointer(None));
    }
  }

  lemma AssignValueDoes(b: World, v: nat, from: nat, was: Holder, other: Holder)
    requires (v == from ==> was == other) && was.Value?
    ensures Does(b, AssignValue(v, from), Drop(b, was), map[v := was][from := other],
                 map[v := other][from := Value(Undefined, None)], {})
  {
    forall vars: map<nat, Holder> | Agrees(vars, map[v := was][from := other])
      ensures v in vars && from in vars && vars[v] == was && vars[from] == other
      ensures vars[v := other][from := Value(Undefined, None)] == vars + map[v := other][from := Value(Undefined, None)] - {}
    {
      PutBoth(vars, v, from, was, other, Value(Undefined, None));
    }
  }

  lemma DestroyDoes(b: World, v: nat, was: Holder)
    ensures was.Pointer? ==> Does(b, DestroyPointer(v), Invalidate(b, was.ptr), map[v := was], map[], {v})
    ensures was.Value? ==> Does(b, DestroyValue(v), Drop(b, was), map[v := was], map[], {v})
  {
    forall vars: map<nat, Holder> | Agrees(vars, map[v := was]) ensures vars - {v} == vars + map[] - {v} {
    }
  }

  lemma ScalarDoes(v: nat, kind: Kind)
    ensures DoesAlone(Scalar(v, kind), map[], map[v := Value(kind, None)])
  {
    forall vars: map<nat, Holder> | Agrees(vars, map[])
      ensures vars[v := Value(kind, None)] == vars + map[v := Value(kind, None)] - {} {
    }
  }

  // ---------------------------------------------------------------- the code

  class Runtime {
    var live: set<nat>
    var invalidated: seq<nat>
    var made: nat

    constructor ()
      ensures In() == EMPTY
    {
      live, invalidated, made := {}, [], 0;
    }

    /** The part of a world that is the runtime's. */
    function In(): World
      reads this
    {
      World(map[], live, invalidated, made)
    }

    method Release(p: nat)
      modifies this
      ensures In() == Invalidate(old(In()), Some(p))
    {
      live := live - {p};
      invalidated := invalidated + [p];
    }

    method NewValue() returns (q: Handle)
      modifies this
      ensures q == Some(old(made)) && forall v, h :: In() == Make(old(In()), v, h).(vars := map[])
    {
      q := Some(made);
      live := live + {made};
      made := made + 1;
    }

    /** cloneSymbol, cloneString, cloneObject. */
    method CloneOf(p: Handle) returns (q: Handle)
      modifies this
      ensures q == if p.Some? then Some(old(made)) else None
      ensures forall v, h :: In() == Clone(old(In()), v, h, p).(vars := map[])
    {
      q := None;
      if p.Some? {
        q := NewValue();
      }
    }
  }

  class PointerObject {
    var ptr: Handle

    function Holds(): Holder
      reads this
    {
      Pointer(ptr)
    }

    constructor Take(ptr: Handle)
      ensures this.ptr == ptr
    {
      this.ptr := ptr;
    }

    /** The runtime creates a string, an object, ... */
    constructor Create(runtime: Runtime)
      modifies runtime
      ensures forall v :: Does(old(runtime.In()), Step.Create(v), runtime.In(), map[], map[v := Holds()], {})
    {
      var made := runtime.NewValue();
      ptr := made;
      new;
      forall v ensures Does(old(runtime.In()), Step.Create(v), runtime.In(), map[], map[v := Holds()], {}) {
        CreateDoes(old(runtime.In()), v);
      }
    }

    constructor Move(other: PointerObject)
      modifies other
      ensures ptr == old(other.ptr) && other.ptr == None
      ensures forall v, from ::
        DoesAlone(MovePointer(v, from), map[from := old(other.Holds())], map[v := Holds()][from := other.Holds()])
    {
      ptr := other.ptr;
      new;
      other.ptr := None;
      forall v, from ensures
        DoesAlone(MovePointer(v, from), map[from := old(other.Holds())], map[v := Holds()][from := other.Holds()])
      {
        MoveDoes(MovePointer(v, from), old(other.Holds()), Holds(), other.Holds());
      }
    }

    /** A clone made by the runtime. */
    constructor Clone(other: PointerObject, runtime: Runtime)
      modifies runtime
      ensures forall v, from ::
        Does(old(runtime.In()), ClonePointer(v, from), runtime.In(), map[from := old(other.Holds())], map[v := Holds()], {})
    {
      var q := runtime.CloneOf(other.ptr);
      ptr := q;
      new;
      forall v, from ensures
        Does(old(runtime.In()), ClonePointer(v, from), runtime.In(), map[from := old(other.Holds())], map[v := Holds()], {})
      {
        CloneDoes(old(runtime.In()), ClonePointer(v, from), old(other.Holds()), q);
      }
    }

    /** `other` can be this object. */
    method Assign(other: PointerObject, runtime: Runtime)
      modifies this, other, runtime
      ensures ptr == (if this == other then None else old(other.ptr)) && other.ptr == None
      ensures runtime.In() == Invalidate(old(runtime.In()), old(ptr))
      ensures forall v, from | v == from <==> this == other ::
        Does(old(runtime.In()), AssignPointer(v, from), runtime.In(), map[v := old(Holds())][from := old(other.Holds())],
             map[v := Holds()][from := other.Holds()], {})
    {
      if ptr.Some? {
        runtime.Release(ptr.value);
      }
      ptr := other.ptr;
      other.ptr := None;
      forall v, from | v == from <==> this == other ensures
        Does(old(runtime.In()), AssignPointer(v, from), runtime.In(), map[v := old(Holds())][from := old(other.Holds())],
             map[v := Holds()][from := other.Holds()], {})
      {
        AssignPointerDoes(old(runtime.In()), v, from, old(Holds()), old(other.Holds()));
        if v == from {
          assert map[v := old(other.Holds())][from := Pointer(None)] == map[v := Holds()][from := other.Holds()];
        }
      }
    }

    method Destroy(runtime: Runtime)
      modifies runtime
      ensures runtime.In() == Invalidate(old(runtime.In()), ptr)
      ensures forall v :: Does(old(runtime.In()), DestroyPointer(v), runtime.In(), map[v := Holds()], map[], {v})
    {
      if ptr.Some? {
        runtime.Release(ptr.value);
      }
      forall v ensures Does(old(runtime.In()), DestroyPointer(v), runtime.In(), map[v := Holds()], map[], {v}) {
        DestroyDoes(old(runtime.In()), v, Holds());
      }
    }
  }

  class ValueObject {
    var kind: Kind
    var ptr: Handle

    function Holds(): Holder
      reads this
    {
      Value(kind, ptr)
    }

    /** A pointer only where the tag says so. */
    predicate Valid()
      reads this
    {
      ptr.Some? ==> HoldsPointer(kind)
    }

    constructor Scalar(kind: Kind)
      requires !HoldsPointer(kind)
      ensures Valid() && Holds() == Value(kind, None)
      ensures forall v :: DoesAlone(Step.Scalar(v, kind), map[], map[v := Holds()])
    {
      this.kind := kind;
      ptr := None;
      new;
      forall v ensures DoesAlone(Step.Scalar(v, kind), map[], map[v := Holds()]) {
        ScalarDoes(v, kind);
      }
    }

    constructor Wrap(other: PointerObject, kind: Kind)
      requires HoldsPointer(kind)
      modifies other
      ensures Valid() && Holds() == Value(kind, old(other.ptr)) && other.ptr == None
      ensures forall v, from ::
        DoesAlone(Step.Wrap(v, from, kind), map[from := old(other.Holds())], map[v := Holds()][from := other.Holds()])
    {
      this.kind := kind;
      ptr := other.ptr;
      new;
      other.ptr := None;
      forall v, from ensures
        DoesAlone(Step.Wrap(v, from, kind), map[from := old(other.Holds())], map[v := Holds()][from := other.Holds()])
      {
        MoveDoes(Step.Wrap(v, from, kind), old(other.Holds()), Holds(), other.Holds());
      }
    }

    constructor WrapClone(other: PointerObject, kind: Kind, runtime: Runtime)
      requires HoldsPointer(kind)
      modifies runtime
      ensures Valid() && this.kind == kind
      ensures forall v, from ::
        Does(old(runtime.In()), Step.WrapClone(v, from, kind), runtime.In(), map[from := old(other.Holds())],
             map[v := Holds()], {})
    {
      var q := runtime.CloneOf(other.ptr);
      this.kind := kind;
      ptr := q;
      new;
      forall v, from ensures
        Does(old(runtime.In()), Step.WrapClone(v, from, kind), runtime.In(), map[from := old(other.Holds())],
             map[v := Holds()], {})
      {
        CloneDoes(old(runtime.In()), Step.WrapClone(v, from, kind), old(other.Holds()), q);
      }
    }

    /** A member is copied only where the tag says it is there. */
    constructor Move(other: ValueObject)
      requires other.Valid()
      modifies other
      ensures Valid() && Holds() == old(other.Holds()) && other.Holds() == Value(Undefined, None)
      ensures forall v, from ::
        DoesAlone(MoveValue(v, from), map[from := old(other.Holds())], map[v := Holds()][from := other.Holds()])
    {
      kind := other.kind;
      ptr := if HoldsPointer(other.kind) then other.ptr else None;
      new;
      other.ptr := None;
      other.kind := Undefined;
      forall v, from ensures
        DoesAlone(MoveValue(v, from), map[from := old(other.Holds())], map[v := Holds()][from := other.Holds()])
      {
        MoveDoes(MoveValue(v, from), old(other.Holds()), Holds(), other.Holds());
      }
    }

    /** The same with a clone made by the runtime. */
    constructor Clone(other: ValueObject, runtime: Runtime)
      requires other.Valid()
      modifies runtime
      ensures Valid() && kind == other.kind
      ensures forall v, from ::
        Does(old(runtime.In()), CloneValue(v, from), runtime.In(), map[from := old(other.Holds())], map[v := Holds()], {})
    {
      var q := runtime.CloneOf(if HoldsPointer(other.kind) then other.ptr else None);
      kind := other.kind;
      ptr := q;
      new;
      forall v, from ensures
        Does(old(runtime.In()), CloneValue(v, from), runtime.In(), map[from := old(other.Holds())], map[v := Holds()], {})
      {
        CloneDoes(old(runtime.In()), CloneValue(v, from), old(other.Holds()), q);
      }
    }

    /** ~Value and a new Value in the same place; `other` can be this object. */
    method Assign(other: ValueObject, runtime: Runtime)
      requires Valid() && other.Valid()
      modifies this, other, runtime
      ensures Valid() && other.Valid()
      ensures runtime.In() == Drop(old(runtime.In()), old(Holds()))
      ensures Holds() == (if this == other then Value(Undefined, None) else old(other.Holds()))
      ensures other.Holds() == Value(Undefined, None)
      ensures forall v, from | v == from <==> this == other ::
        Does(old(runtime.In()), AssignValue(v, from), runtime.In(), map[v := old(Holds())][from := old(other.Holds())],
             map[v := Holds()][from := other.Holds()], {})
    {
      Destroy(runtime);
      kind := other.kind;
      ptr := other.ptr;
      other.ptr := None;
      other.kind := Undefined;
      forall v, from | v == from <==> this == other ensures
        Does(old(runtime.In()), AssignValue(v, from), runtime.In(), map[v := old(Holds())][from := old(other.Holds())],
             map[v := Holds()][from := other.Holds()], {})
      {
        AssignValueDoes(old(runtime.In()), v, from, old(Holds()), old(other.Holds()));
        if v == from {
          assert map[v := old(other.Holds())][from := Value(Undefined, None)] == map[v := Holds()][from := other.Holds()];
        }
      }
    }

    method Destroy(runtime: Runtime)
      modifies runtime
      ensures runtime.In() == Drop(old(runtime.In()), Holds())
      ensures forall v :: Does(old(runtime.In()), DestroyValue(v), runtime.In(), map[v := Holds()], map[], {v})
    {
      if HoldsPointer(kind) && ptr.Some? {
        runtime.Release(ptr.value);
      }
      forall v ensures Does(old(runtime.In()), DestroyValue(v), runtime.In(), map[v := Holds()], map[], {v}) {
        DestroyDoes(old(runtime.In()), v, Holds());
      }
    }

    /** getString, asObject, ... of an rvalue; None stands for the exception of a wrong tag. */
    method Unwrap(wanted: Kind) returns (taken: Option<PointerObject>)
      requires HoldsPointer(wanted)
      modifies this
      ensures kind == old(kind)
      ensures taken.Some? <==> kind == wanted
      ensures taken.Some? ==> fresh(taken.value) && taken.value.ptr == old(ptr) && ptr == None
      ensures taken.None? ==> ptr == old(ptr)
      ensures taken.Some? ==> forall v, from ::
        DoesAlone(Step.Unwrap(v, from), map[from := old(Holds())], map[v := taken.value.Holds()][from := Holds()])
    {
      if kind != wanted {
        return None;
      }
      var p := new PointerObject.Take(ptr);
      ptr := None;
      taken := Some(p);
      forall v, from ensures
        DoesAlone(Step.Unwrap(v, from), map[from := old(Holds())], map[v := p.Holds()][from := Holds()])
      {
        MoveDoes(Step.Unwrap(v, from), old(Holds()), p.Holds(), Holds());
      }
    }

    /** The same of an lvalue: a clone. */
    method UnwrapClone(wanted: Kind, runtime: Runtime) returns (taken: Option<PointerObject>)
      requires HoldsPointer(wanted)
      modifies runtime
      ensures taken.Some? <==> kind == wanted
      ensures taken.None? ==> runtime.In() == old(runtime.In())
      ensures taken.Some? ==> fresh(taken.value) && forall v, from ::
        Does(old(runtime.In()), Step.UnwrapClone(v, from), runtime.In(), map[from := Holds()],
             map[v := taken.value.Holds()], {})
    {
      if kind != wanted {
        return None;
      }
      var q := runtime.CloneOf(ptr);
      var p := new PointerObject.Take(q);
      taken := Some(p);
      forall v, from ensures
        Does(old(runtime.In()), Step.UnwrapClone(v, from), runtime.In(), map[from := Holds()], map[v := p.Holds()], {})
      {
        CloneDoes(old(runtime.In()), Step.UnwrapClone(v, from), Holds(), q);
      }
    }
  }
}

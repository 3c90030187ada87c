/** Awk's call frames: which variable owns which array, which parameters are
    aliases, and what is freed when a call returns (src/awk_interp.c,
    awkGetArrayFor, awkGetScalar, awkSetScalar and awkCallUser). */
module AwkFrames {

  import A = AwkArray
  import opened AwkValues
  import opened Sequences
  import opened Wrappers

  /** The address of a heap-allocated array, and what the array holds. */
  type ArrayId = nat
  type Contents = map<string, AwkValue>

  /** One parameter: `arr` is null until the parameter is known to be an array. */
  datatype Slot = Slot(scalar: AwkValue, arr: Option<ArrayId>, isArray: bool, owns: bool)

  const FRESH_SLOT := Slot(Uninit, None, false, false)

  datatype Frame = Frame(names: seq<string>, slots: seq<Slot>)

  datatype Global = Global(scalar: AwkValue, arr: Option<ArrayId>, isArray: bool)

  datatype Func = Func(params: seq<string>, paramIsArray: seq<bool>)

  /** `heap` holds exactly the arrays that are allocated and not yet freed. */
  datatype State = State(globals: map<string, Global>, frames: seq<Frame>, heap: map<ArrayId, Contents>)

  // ---------- ownership ----------

  datatype Owner = GlobalOwner(name: string) | SlotOwner(depth: nat, index: nat)

  ghost predicate Owns(s: State, o: Owner, id: ArrayId) {
    match o
    case GlobalOwner(n) => n in s.globals && s.globals[n].arr == Some(id)
    case SlotOwner(d, i) =>
      d < |s.frames| && i < |s.frames[d].slots| && s.frames[d].slots[i].owns && s.frames[d].slots[i].arr == Some(id)
  }

  /** The owner is a global or a slot of a frame below depth `d`. */
  predicate Below(o: Owner, d: nat) {
    o.SlotOwner? ==> o.depth < d
  }

  ghost predicate OwnedBelow(s: State, id: ArrayId, d: nat) {
    exists o :: Owns(s, o, id) && Below(o, d)
  }

  /** An array slot is owning, or an alias of an array that a global or a
      strictly lower frame owns. */
  ghost predicate SlotOk(s: State, slot: Slot, d: nat) {
    && (slot.isArray <==> slot.arr.Some?)
    && (slot.owns ==> slot.isArray)
    && (slot.isArray && !slot.owns ==> OwnedBelow(s, slot.arr.value, d))
  }

  ghost predicate FrameOk(s: State, d: nat)
    requires d < |s.frames|
  {
    && |s.frames[d].names| == |s.frames[d].slots|
    && forall i :: 0 <= i < |s.frames[d].slots| ==> SlotOk(s, s.frames[d].slots[i], d)
  }

  /** Live arrays and owners correspond one to one, and every frame is in order. */
  ghost predicate Sound(s: State) {
    && (forall o, id :: Owns(s, o, id) ==> id in s.heap)
    && (forall id :: id in s.heap ==> exists o :: Owns(s, o, id))
    && (forall o, p, id :: Owns(s, o, id) && Owns(s, p, id) ==> o == p)
    && (forall d :: 0 <= d < |s.frames| ==> FrameOk(s, d))
    && (forall n :: n in s.globals ==> (s.globals[n].isArray <==> s.globals[n].arr.Some?))
  }

  /** What any amount of execution leaves alone: the frames of the callers, and in
      the current frame and the globals every array once attached to a variable. */
  ghost predicate Keeps(s: State, t: State) {
    && |t.frames| == |s.frames|
    && (forall d :: 0 <= d < |s.frames| - 1 ==> t.frames[d] == s.frames[d])
    && (forall d :: 0 <= d < |s.frames| ==>
          t.frames[d].names == s.frames[d].names && |t.frames[d].slots| == |s.frames[d].slots|)
    && (forall d, i :: 0 <= d < |s.frames| && 0 <= i < |s.frames[d].slots| ==> SlotKept(s.frames[d].slots[i], t.frames[d].slots[i]))
    && (forall n :: n in s.globals ==> n in t.globals && (s.globals[n].arr.Some? ==> t.globals[n].arr == s.globals[n].arr))
    && (forall o, id :: Owns(s, o, id) ==> Owns(t, o, id))
    && s.heap.Keys <= t.heap.Keys
  }

  predicate SlotKept(x: Slot, y: Slot) {
    x.arr.Some? ==> y.arr == x.arr && y.owns == x.owns
  }

  lemma KeepsIsTransitive(s: State, t: State, u: State)
    requires Keeps(s, t) && Keeps(t, u)
    ensures Keeps(s, u)
  {
    forall d, i | 0 <= d < |s.frames| && 0 <= i < |s.frames[d].slots|
      ensures SlotKept(s.frames[d].slots[i], u.frames[d].slots[i])
    {
      assert SlotKept(s.frames[d].slots[i], t.frames[d].slots[i]);
      assert SlotKept(t.frames[d].slots[i], u.frames[d].slots[i]);
    }
  }

  // ---------- looking names up ----------

  function ParamIndexFrom(names: seq<string>, name: string, i: nat): (r: int)
    requires i <= |names|
    ensures r == -1 || (i <= r < |names| && names[r] == name)
    decreases |names| - i
  {
    if i == |names| then -1 else if names[i] == name then i else ParamIndexFrom(names, name, i + 1)
  }

  /** The slot of `name` in the current frame, or -1 when it is global. */
  function ParamIndex(s: State, name: string): (r: int)
    ensures r != -1 ==> |s.frames| > 0 && 0 <= r < |s.frames[|s.frames| - 1].names|
  {
    if |s.frames| == 0 then -1 else ParamIndexFrom(s.frames[|s.frames| - 1].names, name, 0)
  }

  /** The current frame's slot of `name`, unless the name is global here. */
  function SlotOf(s: State, name: string): Option<Slot> {
    var pi := ParamIndex(s, name);
    if pi >= 0 && pi < |s.frames[|s.frames| - 1].slots| then Some(s.frames[|s.frames| - 1].slots[pi]) else None
  }

  function GlobalOf(s: State, name: string): Global {
    if name in s.globals then s.globals[name] else Global(Uninit, None, false)
  }

  /** The array `name` stands for in the current frame, if it has one yet. */
  function Resolve(s: State, name: string): Option<ArrayId> {
    match SlotOf(s, name)
    case Some(slot) => slot.arr
    case None => GlobalOf(s, name).arr
  }

  function ScalarOf(s: State, name: string): AwkValue {
    match SlotOf(s, name)
    case Some(slot) => slot.scalar
    case None => GlobalOf(s, name).scalar
  }

  /** Nothing has been done with the name yet that would make it a scalar or an array. */
  predicate Untyped(s: State, name: string) {
    match SlotOf(s, name)
    case Some(slot) => !slot.isArray && slot.scalar == Uninit
    case None => name !in s.globals
  }

  /** What the array a name stands for holds. */
  function ArrayOf(s: State, name: string): Contents {
    match Resolve(s, name)
    case Some(id) => if id in s.heap then s.heap[id] else map[]
    case None => map[]
  }

  // ---------- one step on states ----------

  function WithSlot(s: State, i: nat, slot: Slot): State
    requires |s.frames| > 0 && i < |s.frames[|s.frames| - 1].slots|
  {
    var d := |s.frames| - 1;
    s.(frames := s.frames[d := s.frames[d].(slots := s.frames[d].slots[i := slot])])
  }

  function WithGlobal(s: State, name: string, g: Global): State {
    s.(globals := s.globals[name := g])
  }

  /** An address that is not in use. */
  function FreshId(used: set<ArrayId>, at: ArrayId): (id: ArrayId)
    ensures at <= id && id !in used
  {
    if at in used then FreshId(used - {at}, at + 1) else at
  }

  /** An untyped name becomes an array, owned by the current frame's slot or by the global. */
  function AttachArray(s: State, name: string): State {
    var id := FreshId(s.heap.Keys, 0);
    if Resolve(s, name).Some? then s
    else match SlotOf(s, name)
      case Some(slot) =>
        WithSlot(s, ParamIndex(s, name), Slot(slot.scalar, Some(id), true, true)).(heap := s.heap[id := map[]])
      case None =>
        WithGlobal(s, name, GlobalOf(s, name).(arr := Some(id), isArray := true)).(heap := s.heap[id := map[]])
  }

  /** Reading a global as a scalar creates it, which makes it typed from then on. */
  function Touched(s: State, name: string): State {
    if SlotOf(s, name).Some? then s else WithGlobal(s, name, GlobalOf(s, name))
  }

  function Assigned(s: State, name: string, v: AwkValue): State {
    match SlotOf(s, name)
    case Some(slot) => WithSlot(s, ParamIndex(s, name), slot.(scalar := v))
    case None => WithGlobal(s, name, GlobalOf(s, name).(scalar := v))
  }

  /** Two states whose frames have the same shape. */
  ghost predicate SameShape(s: State, t: State) {
    && |t.frames| == |s.frames|
    && forall d :: 0 <= d < |s.frames| ==>
         t.frames[d].names == s.frames[d].names && |t.frames[d].slots| == |s.frames[d].slots|
  }

  /** One owner more, of a new array; every slot is as before or owns that array. */
  lemma OneMoreOwner(s: State, t: State, o: Owner, id: ArrayId)
    requires Sound(s) && id !in s.heap && t.heap == s.heap[id := map[]]
    requires SameShape(s, t)
    requires forall p, x :: Owns(t, p, x) <==> Owns(s, p, x) || (p == o && x == id)
    requires forall d, i :: 0 <= d < |s.frames| && 0 <= i < |s.frames[d].slots| ==>
               t.frames[d].slots[i] == s.frames[d].slots[i]
               || (t.frames[d].slots[i].owns && t.frames[d].slots[i].isArray && t.frames[d].slots[i].arr == Some(id))
    requires forall n :: n in t.globals ==>
               (n in s.globals && t.globals[n] == s.globals[n]) || (t.globals[n].isArray && t.globals[n].arr.Some?)
    ensures Sound(t)
  {
    forall x | x in t.heap
      ensures exists p :: Owns(t, p, x)
    {
      if x == id {
        assert Owns(t, o, id);
      } else {
        var p :| Owns(s, p, x);
        assert Owns(t, p, x);
      }
    }
    forall d | 0 <= d < |t.frames|
      ensures FrameOk(t, d)
    {
      assert FrameOk(s, d);
      forall i | 0 <= i < |t.frames[d].slots|
        ensures SlotOk(t, t.frames[d].slots[i], d)
      {
        var slot := t.frames[d].slots[i];
        assert SlotOk(s, s.frames[d].slots[i], d);
        if slot.isArray && !slot.owns {
          OwnedBelowStill(s, t, slot.arr.value, d);
        }
      }
    }
  }

  lemma OwnedBelowStill(s: State, t: State, id: ArrayId, d: nat)
    requires OwnedBelow(s, id, d)
    requires forall p, x :: Owns(s, p, x) ==> Owns(t, p, x)
    ensures OwnedBelow(t, id, d)
  {
    var o :| Owns(s, o, id) && Below(o, d);
    assert Owns(t, o, id) && Below(o, d);
  }

  /** A new array attached to an empty slot of the current frame belongs to that slot. */
  lemma SlotGetsArray(s: State, i: nat, id: ArrayId)
    requires Sound(s) && |s.frames| > 0 && i < |s.frames[|s.frames| - 1].slots|
    requires !s.frames[|s.frames| - 1].slots[i].arr.Some? && id !in s.heap
    ensures var was := s.frames[|s.frames| - 1].slots[i];
            var t := WithSlot(s, i, Slot(was.scalar, Some(id), true, true)).(heap := s.heap[id := map[]]);
            Sound(t) && Keeps(s, t) && Owns(t, SlotOwner(|s.frames| - 1, i), id)
  {
    hide Sound;
    var d := |s.frames| - 1;
    var t := WithSlot(s, i, Slot(s.frames[d].slots[i].scalar, Some(id), true, true)).(heap := s.heap[id := map[]]);
    OneMoreOwner(s, t, SlotOwner(d, i), id);
  }

  lemma GlobalGetsArray(s: State, name: string, g: Global, id: ArrayId)
    requires Sound(s) && id !in s.heap
    requires name in s.globals ==> !s.globals[name].arr.Some?
    requires g.arr == Some(id) && g.isArray
    ensures var t := WithGlobal(s, name, g).(heap := s.heap[id := map[]]);
            Sound(t) && Keeps(s, t) && Owns(t, GlobalOwner(name), id)
  {
    hide Sound;
    var t := WithGlobal(s, name, g).(heap := s.heap[id := map[]]);
    OneMoreOwner(s, t, GlobalOwner(name), id);
  }

  /** Giving a variable a scalar changes no ownership. */
  lemma ScalarAssigned(s: State, t: State)
    requires Sound(s) && t.heap == s.heap && SameShape(s, t)
    requires forall d :: 0 <= d < |s.frames| - 1 ==> t.frames[d] == s.frames[d]
    requires forall d, i :: 0 <= d < |s.frames| && 0 <= i < |s.frames[d].slots| ==>
               t.frames[d].slots[i] == s.frames[d].slots[i].(scalar := t.frames[d].slots[i].scalar)
    requires s.globals.Keys <= t.globals.Keys
    requires forall n :: n in t.globals ==>
               if n in s.globals then t.globals[n] == s.globals[n].(scalar := t.globals[n].scalar)
               else t.globals[n].arr.None? && !t.globals[n].isArray
    ensures Sound(t) && Keeps(s, t)
  {
    assert forall o, id :: Owns(t, o, id) <==> Owns(s, o, id);
    forall d | 0 <= d < |t.frames|
      ensures FrameOk(t, d)
    {
      assert FrameOk(s, d);
      forall i | 0 <= i < |t.frames[d].slots|
        ensures SlotOk(t, t.frames[d].slots[i], d)
      {
        var slot := s.frames[d].slots[i];
        assert SlotOk(s, slot, d);
        if slot.isArray && !slot.owns {
          OwnedBelowStill(s, t, slot.arr.value, d);
        }
      }
    }
  }

  /** Changing what a live array holds changes no ownership. */
  lemma ContentsChanged(s: State, id: ArrayId, c: Contents)
    requires Sound(s) && id in s.heap
    ensures Sound(s.(heap := s.heap[id := c])) && Keeps(s, s.(heap := s.heap[id := c]))
  {
    var t := s.(heap := s.heap[id := c]);
    assert forall o, x :: Owns(t, o, x) <==> Owns(s, o, x);
    forall d | 0 <= d < |t.frames|
      ensures FrameOk(t, d)
    {
      assert FrameOk(s, d);
      forall i | 0 <= i < |t.frames[d].slots|
        ensures SlotOk(t, t.frames[d].slots[i], d)
      {
        var slot := s.frames[d].slots[i];
        assert SlotOk(s, slot, d);
        if slot.isArray && !slot.owns {
          OwnedBelowStill(s, t, slot.arr.value, d);
        }
      }
    }
  }

  // ---------- pushing and popping frames ----------

  /** A frame of scalars and aliases of arrays that live below it. */
  ghost predicate Pushable(s: State, fr: Frame) {
    && |fr.names| == |fr.slots|
    && forall i :: 0 <= i < |fr.slots| ==> !fr.slots[i].owns && SlotOk(s, fr.slots[i], |s.frames|)
  }

  lemma FramePushed(s: State, fr: Frame)
    requires Sound(s) && Pushable(s, fr)
    ensures Sound(s.(frames := s.frames + [fr]))
    ensures forall o, id :: Owns(s.(frames := s.frames + [fr]), o, id) <==> Owns(s, o, id)
  {
    var t := s.(frames := s.frames + [fr]);
    assert forall o, id :: Owns(t, o, id) <==> Owns(s, o, id);
    forall d | 0 <= d < |t.frames|
      ensures FrameOk(t, d)
    {
      assert d < |s.frames| ==> FrameOk(s, d);
      forall i | 0 <= i < |t.frames[d].slots|
        ensures SlotOk(t, t.frames[d].slots[i], d)
      {
        var slot := t.frames[d].slots[i];
        assert SlotOk(s, slot, d);
        if slot.isArray && !slot.owns {
          OwnedBelowStill(s, t, slot.arr.value, d);
        }
      }
    }
  }

  /** The arrays that the frame's own slots hold. */
  function OwnedBy(fr: Frame): set<ArrayId> {
    set i | 0 <= i < |fr.slots| && fr.slots[i].owns && fr.slots[i].arr.Some? :: fr.slots[i].arr.value
  }

  /** The state after the current frame is popped and its own arrays are freed. */
  function Popped(t: State): State
    requires |t.frames| > 0
  {
    t.(frames := t.frames[..|t.frames| - 1], heap := t.heap - OwnedBy(t.frames[|t.frames| - 1]))
  }

  lemma PoppedOwners(t: State)
    requires Sound(t) && |t.frames| > 0
    ensures forall o, id :: Owns(Popped(t), o, id) <==> Owns(t, o, id) && Below(o, |t.frames| - 1)
    ensures forall o, id :: Owns(Popped(t), o, id) ==> id !in OwnedBy(t.frames[|t.frames| - 1])
  {
    var top := |t.frames| - 1;
    forall o, id | Owns(Popped(t), o, id)
      ensures id !in OwnedBy(t.frames[top])
    {
      assert Owns(t, o, id);
      if id in OwnedBy(t.frames[top]) {
        var i :| 0 <= i < |t.frames[top].slots| && t.frames[top].slots[i].owns && t.frames[top].slots[i].arr == Some(id);
        assert Owns(t, SlotOwner(top, i), id);
      }
    }
  }

  lemma FramePopped(t: State)
    requires Sound(t) && |t.frames| > 0
    ensures Sound(Popped(t))
  {
    PoppedOwners(t);
    var u, top := Popped(t), |t.frames| - 1;
    var own := OwnedBy(t.frames[top]);
    forall id | id in u.heap
      ensures exists o :: Owns(u, o, id)
    {
      var o :| Owns(t, o, id);
      assert !Below(o, top) ==> id in own;
      assert Owns(u, o, id);
    }
    forall o, id | Owns(u, o, id)
      ensures id in u.heap
    {
      assert Owns(t, o, id);
    }
    forall o, p, id | Owns(u, o, id) && Owns(u, p, id)
      ensures o == p
    {
      assert Owns(t, o, id) && Owns(t, p, id);
    }
    forall d | 0 <= d < |u.frames|
      ensures FrameOk(u, d)
    {
      assert FrameOk(t, d);
      forall i | 0 <= i < |u.frames[d].slots|
        ensures SlotOk(u, u.frames[d].slots[i], d)
      {
        var slot := u.frames[d].slots[i];
        assert SlotOk(t, slot, d);
        if slot.isArray && !slot.owns {
          var o :| Owns(t, o, slot.arr.value) && Below(o, d);
          assert Owns(u, o, slot.arr.value) && Below(o, d);
        }
      }
    }
  }

  /** Nothing that outlives a popped frame refers to an array freed with it. */
  lemma FreedArraysUnreachable(t: State, id: ArrayId)
    requires Sound(t) && |t.frames| > 0 && id in OwnedBy(t.frames[|t.frames| - 1])
    ensures forall n :: n in t.globals ==> t.globals[n].arr != Some(id)
    ensures forall d, i :: 0 <= d < |t.frames| - 1 && 0 <= i < |t.frames[d].slots| ==> t.frames[d].slots[i].arr != Some(id)
  {
    PoppedOwners(t);
    FramePopped(t);
    var u := Popped(t);
    forall n | n in t.globals
      ensures t.globals[n].arr != Some(id)
    {
      assert t.globals[n].arr == Some(id) ==> Owns(u, GlobalOwner(n), id);
    }
    forall d, i | 0 <= d < |t.frames| - 1 && 0 <= i < |t.frames[d].slots|
      ensures t.frames[d].slots[i].arr != Some(id)
    {
      var slot := u.frames[d].slots[i];
      assert FrameOk(u, d) && SlotOk(u, slot, d);
      assert slot.arr == Some(id) && slot.owns ==> Owns(u, SlotOwner(d, i), id);
      assert slot.arr == Some(id) && !slot.owns ==> OwnedBelow(u, id, d);
    }
  }

  /** Running a body on top of a pushed frame and popping it keeps the caller's state;
      the frames are then exactly what they were. */
  lemma CallKeeps(s: State, fr: Frame, t: State)
    requires Sound(s) && Pushable(s, fr) && Sound(t)
    requires Keeps(s.(frames := s.frames + [fr]), t)
    ensures |t.frames| > 0 && Sound(Popped(t)) && Keeps(s, Popped(t)) && Popped(t).frames == s.frames
  {
    var pushed := s.(frames := s.frames + [fr]);
    assert forall d :: 0 <= d < |s.frames| ==> pushed.frames[d] == s.frames[d];
    FramePushed(s, fr);
    FramePopped(t);
    PoppedOwners(t);
    var u := Popped(t);
    forall d | 0 <= d < |s.frames|
      ensures u.frames[d].names == s.frames[d].names && |u.frames[d].slots| == |s.frames[d].slots|
    {
      assert pushed.frames[d] == s.frames[d];
    }
    forall d, i | 0 <= d < |s.frames| && 0 <= i < |s.frames[d].slots|
      ensures SlotKept(s.frames[d].slots[i], u.frames[d].slots[i])
    {
      assert SlotKept(pushed.frames[d].slots[i], t.frames[d].slots[i]);
    }
    forall o, id | Owns(s, o, id)
      ensures Owns(u, o, id)
    {
      assert Owns(pushed, o, id);
    }
    forall id | id in s.heap
      ensures id in u.heap
    {
      var o :| Owns(s, o, id);
      assert Owns(u, o, id);
    }
  }

  /** Outside all calls every live array belongs to a global: nothing has leaked. */
  lemma NothingLeaked(s: State)
    requires Sound(s) && s.frames == []
    ensures forall id :: id in s.heap <==> exists n :: n in s.globals && s.globals[n].arr == Some(id)
  {
    forall id
      ensures id in s.heap <==> exists n :: n in s.globals && s.globals[n].arr == Some(id)
    {
      if id in s.heap {
        var o :| Owns(s, o, id);
      }
      if n :| n in s.globals && s.globals[n].arr == Some(id) {
        assert Owns(s, GlobalOwner(n), id);
      }
    }
  }

  // ---------- what a name resolves to ----------

  lemma ResolveKept(s: State, t: State, name: string)
    requires Sound(s) && Sound(t) && Keeps(s, t)
    ensures Resolve(s, name).Some? ==> Resolve(t, name) == Resolve(s, name)
  {
    var pi := ParamIndex(s, name);
    if pi >= 0 {
      var d := |s.frames| - 1;
      assert FrameOk(s, d);
      assert SlotKept(s.frames[d].slots[pi], t.frames[d].slots[pi]);
    }
  }

  lemma ResolveOwned(s: State, name: string)
    requires Sound(s) && Resolve(s, name).Some?
    ensures OwnedBelow(s, Resolve(s, name).value, |s.frames|)
    ensures Resolve(s, name).value in s.heap
  {
    var pi, id := ParamIndex(s, name), Resolve(s, name).value;
    if pi >= 0 {
      var d := |s.frames| - 1;
      assert FrameOk(s, d) && SlotOk(s, s.frames[d].slots[pi], d);
      if s.frames[d].slots[pi].owns {
        assert Owns(s, SlotOwner(d, pi), id) && Below(SlotOwner(d, pi), |s.frames|);
      } else {
        var o :| Owns(s, o, id) && Below(o, d);
        assert Below(o, |s.frames|);
      }
    } else {
      assert Owns(s, GlobalOwner(name), id) && Below(GlobalOwner(name), |s.frames|);
    }
  }

  // ---------- runs ----------

  /** What a terminating run of a statement list does to variables, in order.
      A call carries the trace of the argument expressions and of the body, up
      to wherever a return, exit or next ended it. */
  datatype Act =
    | ReadScalar(name: string)
    | AssignScalar(name: string, value: AwkValue)
    | FetchElement(name: string, key: string)
    | StoreElement(name: string, key: string, value: AwkValue)
    | DeleteElement(name: string, key: string)
    | DeleteAll(name: string)
    | Call(fn: string, args: seq<Arg>, body: seq<Act>)

  /** A call argument: a bare variable name, or any other expression. */
  datatype Arg = Bare(name: string) | Other(acts: seq<Act>, result: AwkValue)

  function UpdateContents(c: Contents, act: Act): Contents {
    match act
    case FetchElement(_, k) => if k in c then c else c[k := Uninit]
    case StoreElement(_, k, v) => c[k := v]
    case DeleteElement(_, k) => c - {k}
    case _ => map[]
  }

  /** The named array after an assignment to it, a reading, a deletion or a clearing. */
  function Updated(s: State, name: string, act: Act): State {
    var t := AttachArray(s, name);
    match Resolve(t, name)
    case Some(id) => t.(heap := t.heap[id := UpdateContents(ArrayOf(t, name), act)])
    case None => t
  }

  datatype Passing = Passing(after: State, slot: Slot)

  datatype Building = Building(after: State, slots: seq<Slot>)

  /** An argument becomes an alias of the caller's array, or a scalar of its own. */
  function PassOne(funcs: map<string, Func>, s: State, arg: Arg, wantsArray: bool): Passing
    decreases arg, 0
  {
    match arg
    case Bare(name) =>
      if Resolve(s, name).Some? then Passing(s, Slot(Uninit, Resolve(s, name), true, false))
      else if wantsArray && Untyped(s, name) then
        var t := AttachArray(s, name);
        Passing(t, Slot(Uninit, Resolve(t, name), true, false))
      else Passing(Touched(s, name), FRESH_SLOT.(scalar := ScalarOf(s, name)))
    case Other(acts, result) =>
      Passing(RunActs(funcs, s, acts), FRESH_SLOT.(scalar := result))
  }

  predicate WantsArray(fn: Func, i: nat) {
    i < |fn.paramIsArray| && fn.paramIsArray[i]
  }

  /** The first `n` parameters, from left to right. */
  function BuildSlots(funcs: map<string, Func>, s: State, fn: Func, args: seq<Arg>, n: nat): Building
    decreases args, 1, n
  {
    if n == 0 then Building(s, [])
    else
      var b := BuildSlots(funcs, s, fn, args, n - 1);
      if n - 1 >= |args| then Building(b.after, b.slots + [FRESH_SLOT])
      else
        var p := PassOne(funcs, b.after, args[n - 1], WantsArray(fn, n - 1));
        Building(p.after, b.slots + [p.slot])
  }

  /** The state a function's body starts in. */
  function Entered(funcs: map<string, Func>, s: State, fn: Func, args: seq<Arg>): State
    decreases args, 2
  {
    var b := BuildSlots(funcs, s, fn, args, |fn.params|);
    b.after.(frames := b.after.frames + [Frame(fn.params, b.slots)])
  }

  function RunCall(funcs: map<string, Func>, s: State, call: Act): State
    requires call.Call?
    decreases call, 0
  {
    if call.fn !in funcs then s
    else
      var t := RunActs(funcs, Entered(funcs, s, funcs[call.fn], call.args), call.body);
      if t.frames == [] then t else Popped(t)
  }

  function RunAct(funcs: map<string, Func>, s: State, act: Act): State
    decreases act, 1
  {
    match act
    case ReadScalar(name) => Touched(s, name)
    case AssignScalar(name, v) => Assigned(s, name, v)
    case Call(_, _, _) => RunCall(funcs, s, act)
    case _ => Updated(s, act.name, act)
  }

  function RunActs(funcs: map<string, Func>, s: State, acts: seq<Act>): State
    decreases acts, 0
  {
    if acts == [] then s else RunAct(funcs, RunActs(funcs, s, acts[..|acts| - 1]), acts[|acts| - 1])
  }

  // ---------- what every run keeps ----------

  lemma NothingDone(s: State)
    ensures Keeps(s, s)
  {
  }

  lemma SlotFound(s: State, name: string)
    requires Sound(s)
    ensures SlotOf(s, name).Some? <==> ParamIndex(s, name) >= 0
    ensures SlotOf(s, name).Some? ==>
              (SlotOf(s, name).value.isArray <==> SlotOf(s, name).value.arr.Some?)
    ensures GlobalOf(s, name).isArray <==> GlobalOf(s, name).arr.Some?
  {
    if ParamIndex(s, name) >= 0 {
      assert FrameOk(s, |s.frames| - 1);
      assert SlotOk(s, s.frames[|s.frames| - 1].slots[ParamIndex(s, name)], |s.frames| - 1);
    }
  }

  lemma AttachKeeps(s: State, name: string)
    requires Sound(s)
    ensures var t := AttachArray(s, name);
            Sound(t) && Keeps(s, t) && Resolve(t, name).Some? && Resolve(t, name).value in t.heap
  {
    hide Sound, Keeps;
    var t, id := AttachArray(s, name), FreshId(s.heap.Keys, 0);
    if Resolve(s, name).Some? {
      ResolveOwned(s, name);
      NothingDone(s);
    } else if SlotOf(s, name).Some? {
      SlotGetsArray(s, ParamIndex(s, name), id);
      assert t.frames[|s.frames| - 1].names == s.frames[|s.frames| - 1].names;
    } else {
      GlobalGetsArray(s, name, GlobalOf(s, name).(arr := Some(id), isArray := true), id);
    }
  }

  lemma TouchKeeps(s: State, name: string)
    requires Sound(s)
    ensures Sound(Touched(s, name)) && Keeps(s, Touched(s, name))
  {
    SlotFound(s, name);
    ScalarAssigned(s, Touched(s, name));
  }

  lemma AssignKeeps(s: State, name: string, v: AwkValue)
    requires Sound(s)
    ensures Sound(Assigned(s, name, v)) && Keeps(s, Assigned(s, name, v))
    ensures ScalarOf(Assigned(s, name, v), name) == v
  {
    SlotFound(s, name);
    ScalarAssigned(s, Assigned(s, name, v));
  }

  /** The array of the name, and no other, gets the contents. */
  lemma UpdateKeeps(s: State, name: string, act: Act)
    requires Sound(s)
    ensures var t := Updated(s, name, act);
            && Sound(t) && Keeps(s, t) && Resolve(t, name).Some?
            && ArrayOf(t, name) == UpdateContents(ArrayOf(s, name), act)
            && forall id :: id in s.heap && Some(id) != Resolve(t, name) ==> id in t.heap && t.heap[id] == s.heap[id]
  {
    hide Sound, Keeps, AttachArray, UpdateContents;
    AttachKeeps(s, name);
    AttachedHeap(s, name);
    var t := AttachArray(s, name);
    var id := Resolve(t, name).value;
    var u := t.(heap := t.heap[id := UpdateContents(ArrayOf(t, name), act)]);
    ContentsChanged(t, id, UpdateContents(ArrayOf(t, name), act));
    KeepsIsTransitive(s, t, u);
    HeapIsNoVariable(t, u, name);
  }

  /** What a name stands for does not depend on what arrays hold. */
  lemma HeapIsNoVariable(s: State, t: State, name: string)
    requires t.frames == s.frames && t.globals == s.globals
    ensures Resolve(t, name) == Resolve(s, name)
  {
  }

  lemma AttachedHeap(s: State, name: string)
    requires Sound(s)
    ensures var t := AttachArray(s, name);
            && ArrayOf(t, name) == ArrayOf(s, name)
            && forall id :: id in s.heap ==> id in t.heap && t.heap[id] == s.heap[id]
  {
    AttachKeeps(s, name);
    if Resolve(s, name).Some? {
      ResolveOwned(s, name);
    } else {
      AttachedIsNew(s, name);
    }
  }

  lemma AttachedIsNew(s: State, name: string)
    requires Sound(s) && Resolve(s, name).None?
    ensures var id := FreshId(s.heap.Keys, 0);
            Resolve(AttachArray(s, name), name) == Some(id) && AttachArray(s, name).heap == s.heap[id := map[]]
  {
    hide Sound;
  }

  /** How a bare name came to be in a slot. */
  ghost predicate PassedAs(before: State, after: State, name: string, wantsArray: bool, slot: Slot) {
    && (slot.isArray <==> Resolve(before, name).Some? || (wantsArray && Untyped(before, name)))
    && (slot.isArray ==> slot.arr == Resolve(after, name))
    && (!slot.isArray ==> slot.scalar == ScalarOf(before, name))
  }

  /** How a parameter got its slot: from a name, from a value, or from no argument. */
  ghost predicate SlotFor(before: State, after: State, fn: Func, args: seq<Arg>, k: nat, slot: Slot) {
    if k >= |args| then slot == FRESH_SLOT
    else if args[k].Bare? then PassedAs(before, after, args[k].name, WantsArray(fn, k), slot)
    else !slot.isArray && slot.scalar == args[k].result
  }

  /** A slot of a frame that is being built. */
  ghost predicate Passable(s: State, slot: Slot) {
    !slot.owns && SlotOk(s, slot, |s.frames|)
  }

  lemma {:induction false} PassKeeps(funcs: map<string, Func>, s: State, arg: Arg, wantsArray: bool)
    requires Sound(s)
    ensures var p := PassOne(funcs, s, arg, wantsArray);
            && Sound(p.after) && Keeps(s, p.after) && Passable(p.after, p.slot)
            && if arg.Bare? then PassedAs(s, p.after, arg.name, wantsArray, p.slot)
               else !p.slot.isArray && p.slot.scalar == arg.result
    decreases arg, 0
  {
    hide Sound, Keeps;
    match arg {
      case Bare(name) =>
        NothingDone(s);
        AttachKeeps(s, name);
        TouchKeeps(s, name);
        var p := PassOne(funcs, s, arg, wantsArray);
        if p.slot.isArray {
          ResolveOwned(p.after, name);
        }
      case Other(acts, result) =>
        RunKeeps(funcs, s, acts);
    }
  }

  lemma PassableStill(s: State, t: State, slot: Slot)
    requires Keeps(s, t) && Passable(s, slot)
    ensures Passable(t, slot)
  {
    if slot.isArray {
      OwnedBelowStill(s, t, slot.arr.value, |s.frames|);
    }
  }

  lemma {:induction false} BuildKeeps(funcs: map<string, Func>, s: State, fn: Func, args: seq<Arg>, n: nat)
    requires Sound(s)
    ensures var b := BuildSlots(funcs, s, fn, args, n);
            && Sound(b.after) && Keeps(s, b.after) && |b.slots| == n
            && forall k :: 0 <= k < n ==> Passable(b.after, b.slots[k])
    decreases args, 1, n
  {
    hide Sound, Keeps, Passable;
    if n == 0 {
      NothingDone(s);
    } else {
      BuildKeeps(funcs, s, fn, args, n - 1);
      var b, c := BuildSlots(funcs, s, fn, args, n - 1), BuildSlots(funcs, s, fn, args, n);
      if n - 1 >= |args| {
        FreshIsPassable(b.after);
      } else {
        PassKeeps(funcs, b.after, args[n - 1], WantsArray(fn, n - 1));
        KeepsIsTransitive(s, b.after, c.after);
      }
      forall k | 0 <= k < n
        ensures Passable(c.after, c.slots[k])
      {
        if k < n - 1 && n - 1 < |args| {
          PassableStill(b.after, c.after, b.slots[k]);
        }
      }
    }
  }

  lemma FreshIsPassable(s: State)
    ensures Passable(s, FRESH_SLOT)
  {
  }

  lemma {:induction false} EnterKeeps(funcs: map<string, Func>, s: State, fn: Func, args: seq<Arg>)
    requires Sound(s)
    ensures var b := BuildSlots(funcs, s, fn, args, |fn.params|);
            && Sound(b.after) && Keeps(s, b.after) && Pushable(b.after, Frame(fn.params, b.slots))
            && Sound(Entered(funcs, s, fn, args))
    decreases args, 2
  {
    hide Sound, Keeps;
    BuildKeeps(funcs, s, fn, args, |fn.params|);
    var b := BuildSlots(funcs, s, fn, args, |fn.params|);
    var fr := Frame(fn.params, b.slots);
    forall k | 0 <= k < |fr.slots|
      ensures !fr.slots[k].owns && SlotOk(b.after, fr.slots[k], |b.after.frames|)
    {
      assert Passable(b.after, b.slots[k]);
    }
    FramePushed(b.after, fr);
  }

  /** A call leaves the caller's variables as passing the arguments left them. */
  lemma {:induction false} RunCallKeeps(funcs: map<string, Func>, s: State, call: Act)
    requires Sound(s) && call.Call?
    ensures Sound(RunCall(funcs, s, call)) && Keeps(s, RunCall(funcs, s, call))
    ensures call.fn in funcs ==>
              var b := BuildSlots(funcs, s, funcs[call.fn], call.args, |funcs[call.fn].params|);
              Keeps(b.after, RunCall(funcs, s, call)) && RunCall(funcs, s, call).frames == b.after.frames
    decreases call, 0
  {
    hide Sound, Keeps;
    if call.fn !in funcs {
      NothingDone(s);
    } else {
      var fn := funcs[call.fn];
      EnterKeeps(funcs, s, fn, call.args);
      var b := BuildSlots(funcs, s, fn, call.args, |fn.params|);
      var entered := Entered(funcs, s, fn, call.args);
      RunKeeps(funcs, entered, call.body);
      CallKeeps(b.after, Frame(fn.params, b.slots), RunActs(funcs, entered, call.body));
      KeepsIsTransitive(s, b.after, RunCall(funcs, s, call));
    }
  }

  lemma {:induction false} RunActKeeps(funcs: map<string, Func>, s: State, act: Act)
    requires Sound(s)
    ensures Sound(RunAct(funcs, s, act)) && Keeps(s, RunAct(funcs, s, act))
    decreases act, 1
  {
    hide Sound, Keeps, Touched, Assigned, Updated, RunCall;
    match act {
      case ReadScalar(name) =>
        TouchKeeps(s, name);
      case AssignScalar(name, v) =>
        AssignKeeps(s, name, v);
      case Call(_, _, _) =>
        RunCallKeeps(funcs, s, act);
      case _ =>
        UpdateKeeps(s, act.name, act);
    }
  }

  /** Every run, whatever the calls in it, keeps the ownership invariant, the callers'
      frames, and every array that a variable already had. */
  lemma {:induction false} RunKeeps(funcs: map<string, Func>, s: State, acts: seq<Act>)
    requires Sound(s)
    ensures Sound(RunActs(funcs, s, acts)) && Keeps(s, RunActs(funcs, s, acts))
    decreases acts, 0
  {
    hide Sound, Keeps, RunAct;
    if acts == [] {
      NothingDone(s);
    } else {
      var front := acts[..|acts| - 1];
      RunKeeps(funcs, s, front);
      RunActKeeps(funcs, RunActs(funcs, s, front), acts[|acts| - 1]);
      KeepsIsTransitive(s, RunActs(funcs, s, front), RunActs(funcs, s, acts));
    }
  }

  // ---------- what a call does to its arguments ----------

  lemma {:induction false} SlotsSoFar(funcs: map<string, Func>, s: State, fn: Func, args: seq<Arg>, k: nat, n: nat)
    requires k <= n
    ensures |BuildSlots(funcs, s, fn, args, n).slots| == n
    ensures BuildSlots(funcs, s, fn, args, n).slots[..k] == BuildSlots(funcs, s, fn, args, k).slots
  {
    hide PassOne;
    if k < n {
      SlotsSoFar(funcs, s, fn, args, k, n - 1);
    } else if n > 0 {
      SlotsSoFar(funcs, s, fn, args, n - 1, n - 1);
    }
  }

  /** Building from the first `n` parameters on keeps what there was. */
  lemma {:induction false} BuildGoesOn(funcs: map<string, Func>, s: State, fn: Func, args: seq<Arg>, k: nat, n: nat)
    requires Sound(s) && k <= n
    ensures Sound(BuildSlots(funcs, s, fn, args, k).after)
    ensures Keeps(BuildSlots(funcs, s, fn, args, k).after, BuildSlots(funcs, s, fn, args, n).after)
  {
    hide Sound, Keeps, PassOne;
    BuildKeeps(funcs, s, fn, args, k);
    var b := BuildSlots(funcs, s, fn, args, k);
    if k == n {
      NothingDone(b.after);
    } else {
      BuildGoesOn(funcs, s, fn, args, k, n - 1);
      BuildKeeps(funcs, s, fn, args, n - 1);
      var c := BuildSlots(funcs, s, fn, args, n - 1);
      if n - 1 < |args| {
        PassKeeps(funcs, c.after, args[n - 1], WantsArray(fn, n - 1));
        KeepsIsTransitive(b.after, c.after, BuildSlots(funcs, s, fn, args, n).after);
      }
    }
  }

  /** In the finished frame a bare name is an alias of what the caller's name stands for
      if it was an array, or untyped where the parameter is one; else its value. */
  lemma ArgumentPassed(funcs: map<string, Func>, s: State, fn: Func, args: seq<Arg>, k: nat, n: nat)
    requires Sound(s) && k < n
    ensures |BuildSlots(funcs, s, fn, args, n).slots| == n
    ensures SlotFor(BuildSlots(funcs, s, fn, args, k).after, BuildSlots(funcs, s, fn, args, n).after, fn, args, k,
                    BuildSlots(funcs, s, fn, args, n).slots[k])
  {
    hide Sound, Keeps;
    var b, c, d := BuildSlots(funcs, s, fn, args, k), BuildSlots(funcs, s, fn, args, k + 1), BuildSlots(funcs, s, fn, args, n);
    SlotsSoFar(funcs, s, fn, args, k + 1, n);
    SlotsSoFar(funcs, s, fn, args, k, k + 1);
    assert d.slots[k] == d.slots[..k + 1][k] == c.slots[k];
    if k < |args| {
      BuildKeeps(funcs, s, fn, args, k);
      PassKeeps(funcs, b.after, args[k], WantsArray(fn, k));
      BuildGoesOn(funcs, s, fn, args, k + 1, n);
      BuildKeeps(funcs, s, fn, args, n);
      if c.slots[k].isArray {
        assert Resolve(c.after, args[k].name).Some? by {
          assert Passable(c.after, c.slots[k]);
        }
        ResolveKept(c.after, d.after, args[k].name);
      }
    }
  }

  lemma ArrayStaysPassed(funcs: map<string, Func>, s: State, fn: Func, args: seq<Arg>, k: nat)
    requires Sound(s) && k < |fn.params| && k < |args| && args[k].Bare? && Resolve(s, args[k].name).Some?
    ensures |BuildSlots(funcs, s, fn, args, |fn.params|).slots| == |fn.params|
    ensures BuildSlots(funcs, s, fn, args, |fn.params|).slots[k].arr == Resolve(s, args[k].name)
  {
    hide Sound, Keeps, BuildSlots;
    ArgumentPassed(funcs, s, fn, args, k, |fn.params|);
    BuildKeeps(funcs, s, fn, args, k);
    BuildKeeps(funcs, s, fn, args, |fn.params|);
    ResolveKept(s, BuildSlots(funcs, s, fn, args, k).after, args[k].name);
    ResolveKept(s, BuildSlots(funcs, s, fn, args, |fn.params|).after, args[k].name);
  }

  /** The argument is passed by reference. */
  predicate ByReference(funcs: map<string, Func>, s: State, call: Act, i: nat)
    requires call.Call? && call.fn in funcs && i < |call.args| && call.args[i].Bare?
  {
    var before := BuildSlots(funcs, s, funcs[call.fn], call.args, i).after;
    Resolve(before, call.args[i].name).Some? || (WantsArray(funcs[call.fn], i) && Untyped(before, call.args[i].name))
  }

  /** After a call the caller's name holds what the parameter held when the body ended. */
  lemma CalleeSharesArray(funcs: map<string, Func>, s: State, call: Act, i: nat)
    requires Sound(s) && call.Call? && call.fn in funcs
    requires i < |funcs[call.fn].params| && i < |call.args| && call.args[i].Bare?
    requires ParamIndexFrom(funcs[call.fn].params, funcs[call.fn].params[i], 0) == i
    requires ByReference(funcs, s, call, i)
    ensures var inner := RunActs(funcs, Entered(funcs, s, funcs[call.fn], call.args), call.body);
            var after, p := RunCall(funcs, s, call), funcs[call.fn].params[i];
            && Resolve(after, call.args[i].name).Some? && Resolve(after, call.args[i].name) == Resolve(inner, p)
            && ArrayOf(after, call.args[i].name) == ArrayOf(inner, p)
  {
    hide Sound, Keeps, RunActs, BuildSlots;
    var fn, name := funcs[call.fn], call.args[i].name;
    var n, p := |fn.params|, fn.params[i];
    var b := BuildSlots(funcs, s, fn, call.args, n);
    var entered := Entered(funcs, s, fn, call.args);
    var inner, after := RunActs(funcs, entered, call.body), RunCall(funcs, s, call);
    EnterKeeps(funcs, s, fn, call.args);
    ArgumentPassed(funcs, s, fn, call.args, i, n);
    assert SlotOf(entered, p) == Some(b.slots[i]);
    assert b.slots[i].arr.Some? by {
      assert SlotOk(b.after, b.slots[i], |b.after.frames|);
    }
    RunKeeps(funcs, entered, call.body);
    ResolveKept(entered, inner, p);
    RunCallKeeps(funcs, s, call);
    ResolveKept(b.after, after, name);
    ResolveOwned(after, name);
    CallKeeps(b.after, Frame(fn.params, b.slots), inner);
  }

  /** So a callee's last assignment to an element is there for the caller to read. */
  lemma WriteIsSeen(funcs: map<string, Func>, s: State, call: Act, i: nat, front: seq<Act>, key: string, v: AwkValue)
    requires Sound(s) && call.Call? && call.fn in funcs
    requires i < |funcs[call.fn].params| && i < |call.args| && call.args[i].Bare?
    requires ParamIndexFrom(funcs[call.fn].params, funcs[call.fn].params[i], 0) == i
    requires ByReference(funcs, s, call, i)
    requires call.body == front + [StoreElement(funcs[call.fn].params[i], key, v)]
    ensures var seen := ArrayOf(RunCall(funcs, s, call), call.args[i].name); key in seen && seen[key] == v
  {
    hide Sound, Keeps, RunCall, Entered, ByReference;
    CalleeSharesArray(funcs, s, call, i);
    var p, entered := funcs[call.fn].params[i], Entered(funcs, s, funcs[call.fn], call.args);
    EnterKeeps(funcs, s, funcs[call.fn], call.args);
    RunKeeps(funcs, entered, front);
    assert call.body[..|call.body| - 1] == front;
    hide Updated;
    UpdateKeeps(RunActs(funcs, entered, front), p, StoreElement(p, key, v));
  }

  lemma OtherNamePassed(funcs: map<string, Func>, s: State, name: string, other: string, wantsArray: bool)
    requires Sound(s) && SlotOf(s, name).Some? && other != name
    ensures SlotOf(PassOne(funcs, s, Bare(other), wantsArray).after, name) == SlotOf(s, name)
  {
    hide Sound;
  }

  lemma {:induction false} OtherNamesPassed(
      funcs: map<string, Func>, s: State, fn: Func, args: seq<Arg>, name: string, k: nat, n: nat)
    requires Sound(s) && k <= n && SlotOf(BuildSlots(funcs, s, fn, args, k).after, name).Some?
    requires forall j :: k <= j < |args| ==> args[j].Bare? && args[j].name != name
    ensures SlotOf(BuildSlots(funcs, s, fn, args, n).after, name) == SlotOf(BuildSlots(funcs, s, fn, args, k).after, name)
  {
    hide Sound, Keeps, PassOne, SlotOf;
    if k < n {
      OtherNamesPassed(funcs, s, fn, args, name, k, n - 1);
      BuildKeeps(funcs, s, fn, args, n - 1);
      if n - 1 < |args| {
        OtherNamePassed(funcs, BuildSlots(funcs, s, fn, args, n - 1).after, name, args[n - 1].name, WantsArray(fn, n - 1));
      }
    }
  }

  /** The analysis' flag decides: a variable of the caller that is untyped when it is
      passed is an array after the call if and only if the parameter is flagged. */
  lemma FlagDecides(funcs: map<string, Func>, s: State, call: Act, i: nat)
    requires Sound(s) && call.Call? && call.fn in funcs
    requires i < |funcs[call.fn].params| && i < |call.args| && call.args[i].Bare?
    requires forall j :: i < j < |call.args| ==> call.args[j].Bare? && call.args[j].name != call.args[i].name
    requires var before := BuildSlots(funcs, s, funcs[call.fn], call.args, i).after;
             Untyped(before, call.args[i].name) && SlotOf(before, call.args[i].name).Some?
    ensures Resolve(RunCall(funcs, s, call), call.args[i].name).Some? <==> WantsArray(funcs[call.fn], i)
  {
    hide Sound, Keeps, RunCall, PassOne, BuildSlots, Untyped, SlotOf;
    var fn, name, n := funcs[call.fn], call.args[i].name, |funcs[call.fn].params|;
    var before, b := BuildSlots(funcs, s, fn, call.args, i).after, BuildSlots(funcs, s, fn, call.args, n);
    BuildKeeps(funcs, s, fn, call.args, i);
    PassLocal(funcs, before, name, WantsArray(fn, i));
    BuildNext(funcs, s, fn, call.args, i);
    OtherNamesPassed(funcs, s, fn, call.args, name, i + 1, n);
    RunCallKeeps(funcs, s, call);
    SlotsAreInFrames(b.after, RunCall(funcs, s, call), name);
  }

  lemma BuildNext(funcs: map<string, Func>, s: State, fn: Func, args: seq<Arg>, i: nat)
    requires i < |args|
    ensures BuildSlots(funcs, s, fn, args, i + 1).after
         == PassOne(funcs, BuildSlots(funcs, s, fn, args, i).after, args[i], WantsArray(fn, i)).after
  {
    hide PassOne;
  }

  lemma SlotsAreInFrames(s: State, t: State, name: string)
    requires s.frames == t.frames
    ensures SlotOf(s, name) == SlotOf(t, name)
  {
  }

  lemma PassLocal(funcs: map<string, Func>, s: State, name: string, wantsArray: bool)
    requires Sound(s) && Untyped(s, name) && SlotOf(s, name).Some?
    ensures var t := PassOne(funcs, s, Bare(name), wantsArray).after;
            SlotOf(t, name).Some? && (SlotOf(t, name).value.arr.Some? <==> wantsArray)
  {
    SlotFound(s, name);
    hide Sound;
  }

  // ---------- what the elements of an array read ----------

  predicate OnArray(act: Act) {
    act.FetchElement? || act.StoreElement? || act.DeleteElement? || act.DeleteAll?
  }

  /** The act as an operation of a finite map. */
  function OpOf(act: Act): A.Op
    requires OnArray(act)
  {
    match act
    case FetchElement(_, k) => A.Get(k)
    case StoreElement(_, k, v) => A.Put(k, v)
    case DeleteElement(_, k) => A.Remove(k)
    case DeleteAll(_) => A.RemoveAll
  }

  function Element(c: Contents, key: string): Option<AwkValue> {
    if key in c then Some(c[key]) else None
  }

  /** What one key reads after an operation: an assignment sets its own key, a reading
      adds its own key unset if it is missing, a deletion takes its own key away,
      clearing takes away every key, and no other key changes. */
  function KeyAfter(was: Option<AwkValue>, op: A.Op, key: string): Option<AwkValue> {
    match op
    case Put(k, v) => if k == key then Some(v) else was
    case Get(k) => if k == key && was.None? then Some(Uninit) else was
    case Remove(k) => if k == key then None else was
    case RemoveAll => None
    case _ => was
  }

  function KeyAfterAll(was: Option<AwkValue>, ops: seq<A.Op>, key: string): Option<AwkValue> {
    if ops == [] then was else KeyAfter(KeyAfterAll(was, ops[..|ops| - 1], key), ops[|ops| - 1], key)
  }

  /** An operation that leaves a key as it is. */
  predicate Spares(op: A.Op, key: string, present: bool) {
    match op
    case Put(k, _) => k != key
    case Get(k) => k != key || present
    case Remove(k) => k != key
    case RemoveAll => false
    case _ => true
  }

  lemma UpdateIsStep(c: Contents, act: Act)
    requires OnArray(act)
    ensures UpdateContents(c, act) == A.StepModel(c, OpOf(act)).0
  {
  }

  lemma StepReads(c: Contents, op: A.Op, key: string)
    ensures Element(A.StepModel(c, op).0, key) == KeyAfter(Element(c, key), op, key)
  {
  }

  lemma UpdateReads(c: Contents, act: Act, key: string)
    requires OnArray(act)
    ensures Element(UpdateContents(c, act), key) == KeyAfter(Element(c, key), OpOf(act), key)
  {
    hide *;
    UpdateIsStep(c, act);
    StepReads(c, OpOf(act), key);
  }

  lemma {:induction false} RunReads(c: Contents, ops: seq<A.Op>, key: string)
    ensures Element(A.RunModel(c, ops).0, key) == KeyAfterAll(Element(c, key), ops, key)
  {
    hide A.StepModel, KeyAfter, Element;
    if ops != [] {
      RunReads(c, ops[..|ops| - 1], key);
      StepReads(A.RunModel(c, ops[..|ops| - 1]).0, ops[|ops| - 1], key);
    }
  }

  /** A key that every operation spares reads what it read before. */
  lemma {:induction false} SparedKeyStays(v: AwkValue, ops: seq<A.Op>, key: string)
    requires forall op :: op in ops ==> Spares(op, key, true)
    ensures KeyAfterAll(Some(v), ops, key) == Some(v)
  {
    if ops != [] {
      SparedKeyStays(v, ops[..|ops| - 1], key);
      assert Spares(ops[|ops| - 1], key, true);
    }
  }

  lemma AttachedOther(s: State, name: string, other: string)
    requires Sound(s) && other != name
    ensures Resolve(AttachArray(s, name), other) == Resolve(s, other)
  {
    SlotFound(s, name);
    SlotFound(s, other);
    hide Sound;
  }

  /** After an act on the array of one name, any key of any name's array reads what that
      act makes of it, if the two names stand for the same array, and what it read
      before if they do not. */
  ghost predicate ElementsFollow(s: State, t: State, name: string, act: Act)
    requires OnArray(act)
  {
    forall other, key :: Element(ArrayOf(t, other), key) ==
      if Resolve(t, other) == Resolve(t, name) then KeyAfter(Element(ArrayOf(s, other), key), OpOf(act), key)
      else Element(ArrayOf(s, other), key)
  }

  lemma UpdatedFollows(s: State, name: string, act: Act)
    requires Sound(s) && OnArray(act)
    ensures ElementsFollow(s, Updated(s, name, act), name, act)
  {
    hide Sound, Updated, Resolve, Element, KeyAfter;
    forall other, key
      ensures var t := Updated(s, name, act);
              Element(ArrayOf(t, other), key) ==
              if Resolve(t, other) == Resolve(t, name) then KeyAfter(Element(ArrayOf(s, other), key), OpOf(act), key)
              else Element(ArrayOf(s, other), key)
    {
      UpdatedReads(s, name, act, other, key);
    }
  }

  lemma UpdatedReads(s: State, name: string, act: Act, other: string, key: string)
    requires Sound(s) && OnArray(act)
    ensures var t := Updated(s, name, act);
            Element(ArrayOf(t, other), key) ==
            if Resolve(t, other) == Resolve(t, name) then KeyAfter(Element(ArrayOf(s, other), key), OpOf(act), key)
            else Element(ArrayOf(s, other), key)
  {
    hide Sound, Keeps, AttachArray, UpdateContents, Element, KeyAfter;
    var t, a := Updated(s, name, act), AttachArray(s, name);
    UpdateKeeps(s, name, act);
    UpdateReads(ArrayOf(s, other), act, key);
    AttachKeeps(s, name);
    HeapIsNoVariable(a, t, name);
    HeapIsNoVariable(a, t, other);
    if other != name {
      AttachedOther(s, name, other);
      if Resolve(s, other).Some? {
        ResolveOwned(s, other);
        if Resolve(t, other) == Resolve(t, name) {
          SharedBefore(s, name, other);
        }
      }
    }
  }

  /** A name that stands for an array that was there already has stood for it all along. */
  lemma SharedBefore(s: State, name: string, other: string)
    requires Sound(s) && Resolve(s, other).Some?
    requires Resolve(AttachArray(s, name), name) == Resolve(s, other)
    ensures Resolve(s, name) == Resolve(s, other)
  {
    ResolveOwned(s, other);
    if Resolve(s, name).None? {
      AttachedIsNew(s, name);
    }
    hide Sound;
  }

  // ---------- what a run does to an array ----------

  /** The operations that a run makes on the array at an address, in order, with those
      of the argument expressions and the bodies of its calls. */
  ghost function ActsOps(funcs: map<string, Func>, s: State, acts: seq<Act>, id: ArrayId): seq<A.Op>
    decreases acts, 0
  {
    if acts == [] then []
    else
      var front := acts[..|acts| - 1];
      ActsOps(funcs, s, front, id) + ActOps(funcs, RunActs(funcs, s, front), acts[|acts| - 1], id)
  }

  ghost function ActOps(funcs: map<string, Func>, s: State, act: Act, id: ArrayId): seq<A.Op>
    decreases act, 1
  {
    if act.Call? then CallOps(funcs, s, act, id)
    else if OnArray(act) && Resolve(s, act.name) == Some(id) then [OpOf(act)]
    else []
  }

  ghost function CallOps(funcs: map<string, Func>, s: State, call: Act, id: ArrayId): seq<A.Op>
    requires call.Call?
    decreases call, 0
  {
    if call.fn !in funcs then []
    else
      var fn := funcs[call.fn];
      ArgsOps(funcs, s, fn, call.args, |fn.params|, id) + ActsOps(funcs, Entered(funcs, s, fn, call.args), call.body, id)
  }

  ghost function ArgsOps(funcs: map<string, Func>, s: State, fn: Func, args: seq<Arg>, n: nat, id: ArrayId): seq<A.Op>
    decreases args, 1, n
  {
    if n == 0 then []
    else if n - 1 >= |args| then ArgsOps(funcs, s, fn, args, n - 1, id)
    else
      ArgsOps(funcs, s, fn, args, n - 1, id)
      + ArgOps(funcs, BuildSlots(funcs, s, fn, args, n - 1).after, args[n - 1], id)
  }

  ghost function ArgOps(funcs: map<string, Func>, s: State, arg: Arg, id: ArrayId): seq<A.Op>
    decreases arg, 0
  {
    if arg.Bare? then [] else ActsOps(funcs, s, arg.acts, id)
  }

  /** From one state to the other the array at the address goes through these operations. */
  ghost predicate GoesThrough(s: State, t: State, id: ArrayId, ops: seq<A.Op>) {
    id in s.heap && id in t.heap && t.heap[id] == A.RunModel(s.heap[id], ops).0
  }

  lemma {:induction false} RunModelJoins(c: Contents, x: seq<A.Op>, y: seq<A.Op>)
    ensures A.RunModel(c, x + y).0 == A.RunModel(A.RunModel(c, x).0, y).0
  {
    hide A.StepModel;
    if y == [] {
      assert x + y == x;
    } else {
      LastApart(x, y);
      RunModelJoins(c, x, y[..|y| - 1]);
      RunModelNext(c, x + y[..|y| - 1], y[|y| - 1]);
      RunModelNext(A.RunModel(c, x).0, y[..|y| - 1], y[|y| - 1]);
    }
  }

  lemma RunModelNext(c: Contents, ops: seq<A.Op>, op: A.Op)
    ensures A.RunModel(c, ops + [op]).0 == A.StepModel(A.RunModel(c, ops).0, op).0
  {
    hide A.StepModel;
    assert (ops + [op])[..|ops|] == ops;
  }

  lemma GoesOn(s: State, t: State, u: State, id: ArrayId, x: seq<A.Op>, y: seq<A.Op>)
    requires GoesThrough(s, t, id, x) && GoesThrough(t, u, id, y)
    ensures GoesThrough(s, u, id, x + y)
  {
    RunModelJoins(s.heap[id], x, y);
  }

  lemma NoOperation(s: State, t: State, id: ArrayId)
    requires id in s.heap && id in t.heap && t.heap[id] == s.heap[id]
    ensures GoesThrough(s, t, id, [])
  {
  }

  lemma OneOperation(s: State, act: Act, id: ArrayId)
    requires Sound(s) && OnArray(act) && id in s.heap
    ensures GoesThrough(s, Updated(s, act.name, act), id, if Resolve(s, act.name) == Some(id) then [OpOf(act)] else [])
  {
    hide Sound, Keeps, AttachArray, UpdateContents, A.StepModel;
    var t := Updated(s, act.name, act);
    UpdateKeeps(s, act.name, act);
    if Resolve(s, act.name) == Some(id) {
      ResolveKept(s, t, act.name);
      ResolveOwned(t, act.name);
      UpdateIsStep(s.heap[id], act);
      RunModelNext(s.heap[id], [], OpOf(act));
      assert [] + [OpOf(act)] == [OpOf(act)];
    } else {
      OtherArray(s, act.name, id);
      HeapIsNoVariable(AttachArray(s, act.name), t, act.name);
      NoOperation(s, t, id);
    }
  }

  lemma OtherArray(s: State, name: string, id: ArrayId)
    requires Sound(s) && id in s.heap && Resolve(s, name) != Some(id)
    ensures Resolve(AttachArray(s, name), name) != Some(id)
  {
    if Resolve(s, name).None? {
      AttachedIsNew(s, name);
    }
    hide Sound;
  }

  lemma {:induction false} ArgGoes(funcs: map<string, Func>, s: State, arg: Arg, wantsArray: bool, id: ArrayId)
    requires Sound(s) && id in s.heap
    ensures GoesThrough(s, PassOne(funcs, s, arg, wantsArray).after, id, ArgOps(funcs, s, arg, id))
    decreases arg, 0
  {
    hide Sound, Keeps, GoesThrough, AttachArray;
    match arg {
      case Bare(name) =>
        AttachedHeap(s, name);
        NoOperation(s, PassOne(funcs, s, arg, wantsArray).after, id);
      case Other(acts, result) =>
        RunGoes(funcs, s, acts, id);
    }
  }

  lemma {:induction false} ArgsGo(funcs: map<string, Func>, s: State, fn: Func, args: seq<Arg>, n: nat, id: ArrayId)
    requires Sound(s) && id in s.heap
    ensures GoesThrough(s, BuildSlots(funcs, s, fn, args, n).after, id, ArgsOps(funcs, s, fn, args, n, id))
    decreases args, 1, n
  {
    hide Sound, Keeps, GoesThrough, PassOne, ArgOps;
    if n == 0 {
      NoOperation(s, s, id);
    } else {
      ArgsGo(funcs, s, fn, args, n - 1, id);
      if n - 1 < |args| {
        var b := BuildSlots(funcs, s, fn, args, n - 1).after;
        BuildKeeps(funcs, s, fn, args, n - 1);
        StillThere(s, b, id);
        ArgGoes(funcs, b, args[n - 1], WantsArray(fn, n - 1), id);
        GoesOn(s, b, BuildSlots(funcs, s, fn, args, n).after, id, ArgsOps(funcs, s, fn, args, n - 1, id),
               ArgOps(funcs, b, args[n - 1], id));
      }
    }
  }

  lemma StillThere(s: State, t: State, id: ArrayId)
    requires Keeps(s, t) && id in s.heap
    ensures id in t.heap
  {
  }

  lemma {:induction false} CallGoes(funcs: map<string, Func>, s: State, call: Act, id: ArrayId)
    requires Sound(s) && call.Call? && id in s.heap
    ensures GoesThrough(s, RunCall(funcs, s, call), id, CallOps(funcs, s, call, id))
    decreases call, 0
  {
    hide Sound, Keeps, RunActs, BuildSlots, ActsOps, ArgsOps, GoesThrough;
    if call.fn !in funcs {
      NoOperation(s, s, id);
      return;
    }
    var fn := funcs[call.fn];
    var b, entered := BuildSlots(funcs, s, fn, call.args, |fn.params|).after, Entered(funcs, s, fn, call.args);
    var inner, after := RunActs(funcs, entered, call.body), RunCall(funcs, s, call);
    EnterKeeps(funcs, s, fn, call.args);
    ArgsGo(funcs, s, fn, call.args, |fn.params|, id);
    StillThere(s, b, id);
    SameHeap(s, b, entered, id, ArgsOps(funcs, s, fn, call.args, |fn.params|, id));
    RunGoes(funcs, entered, call.body, id);
    GoesOn(s, entered, inner, id, ArgsOps(funcs, s, fn, call.args, |fn.params|, id), ActsOps(funcs, entered, call.body, id));
    RunCallKeeps(funcs, s, call);
    StillThere(s, after, id);
    FreedOthers(s, inner, after, id, CallOps(funcs, s, call, id));
  }

  lemma SameHeap(s: State, t: State, u: State, id: ArrayId, ops: seq<A.Op>)
    requires GoesThrough(s, t, id, ops) && u.heap == t.heap
    ensures GoesThrough(s, u, id, ops)
  {
  }

  lemma FreedOthers(s: State, t: State, u: State, id: ArrayId, ops: seq<A.Op>)
    requires GoesThrough(s, t, id, ops) && id in u.heap
    requires u == if t.frames == [] then t else Popped(t)
    ensures GoesThrough(s, u, id, ops)
  {
  }

  /** A run does to an array that is there exactly what a finite map does under the
      operations that reach it, whatever names and calls they go through. */
  lemma {:induction false} RunGoes(funcs: map<string, Func>, s: State, acts: seq<Act>, id: ArrayId)
    requires Sound(s) && id in s.heap
    ensures GoesThrough(s, RunActs(funcs, s, acts), id, ActsOps(funcs, s, acts, id))
    decreases acts, 0
  {
    hide Sound, Keeps, RunAct, ActOps, GoesThrough;
    if acts == [] {
      NoOperation(s, s, id);
    } else {
      var front, last := acts[..|acts| - 1], acts[|acts| - 1];
      var t := RunActs(funcs, s, front);
      RunGoes(funcs, s, front, id);
      RunKeeps(funcs, s, front);
      StillThere(s, t, id);
      ActGoes(funcs, t, last, id);
      GoesOn(s, t, RunActs(funcs, s, acts), id, ActsOps(funcs, s, front, id), ActOps(funcs, t, last, id));
    }
  }

  lemma {:induction false} ActGoes(funcs: map<string, Func>, s: State, act: Act, id: ArrayId)
    requires Sound(s) && id in s.heap
    ensures GoesThrough(s, RunAct(funcs, s, act), id, ActOps(funcs, s, act, id))
    decreases act, 1
  {
    hide Sound, Keeps, Updated, RunCall, CallOps, GoesThrough;
    match act {
      case ReadScalar(name) =>
        NoOperation(s, Touched(s, name), id);
      case AssignScalar(name, v) =>
        NoOperation(s, Assigned(s, name, v), id);
      case Call(_, _, _) =>
        CallGoes(funcs, s, act, id);
      case _ =>
        OneOperation(s, act, id);
    }
  }

  /** An element keeps what was assigned to it through any run, with all the calls in it,
      that does not reach it again to assign, delete or clear. */
  lemma AssignedElementStays(funcs: map<string, Func>, s: State, name: string, key: string, v: AwkValue, rest: seq<Act>)
    requires Sound(s)
    requires var t := Updated(s, name, StoreElement(name, key, v));
             Resolve(t, name).Some? ==> forall op :: op in ActsOps(funcs, t, rest, Resolve(t, name).value) ==> Spares(op, key, true)
    ensures var u := RunActs(funcs, Updated(s, name, StoreElement(name, key, v)), rest);
            Element(ArrayOf(u, name), key) == Some(v)
  {
    hide Sound, Keeps, AttachArray, UpdateContents, ActsOps, RunActs, A.RunModel, Updated;
    var act := StoreElement(name, key, v);
    var t := Updated(s, name, act);
    var u := RunActs(funcs, t, rest);
    UpdateKeeps(s, name, act);
    UpdatedReads(s, name, act, name, key);
    var id := Resolve(t, name).value;
    ResolveOwned(t, name);
    RunKeeps(funcs, t, rest);
    ResolveKept(t, u, name);
    RunGoes(funcs, t, rest, id);
    RunReads(t.heap[id], ActsOps(funcs, t, rest, id), key);
    SparedKeyStays(v, ActsOps(funcs, t, rest, id), key);
  }

  /** An update writes to the heap, at the address of the array that is then there. */
  lemma UpdatedIs(s: State, t: State, name: string, act: Act, id: ArrayId)
    requires Sound(s) && t == AttachArray(s, name) && Resolve(t, name) == Some(id) && id in t.heap
    requires Resolve(s, name).Some? ==> t == s
    requires Resolve(s, name).None? ==> t.heap == s.heap[id := map[]] && id !in s.heap
    ensures var u := t.(heap := t.heap[id := UpdateContents(t.heap[id], act)]);
            && Updated(s, name, act) == u && Resolve(u, name) == Some(id)
            && u.heap == s.heap[id := UpdateContents(if id in s.heap then s.heap[id] else map[], act)]
  {
    hide Sound, AttachArray, UpdateContents;
    HeapIsNoVariable(t, t.(heap := t.heap[id := UpdateContents(t.heap[id], act)]), name);
  }

  lemma StateFields(interp: Interp)
    ensures interp.S() == State(interp.globals, interp.frames, interp.heap)
    ensures interp.Valid() <==> Sound(interp.S()) && forall f :: f in interp.funcs ==> |interp.funcs[f].paramIsArray| == |interp.funcs[f].params|
  {
  }

  // ---------- what variables hold ----------

  /** The variable a name stands for, wherever it is. */
  datatype Variable = GlobalVariable(name: string) | SlotVariable(depth: nat, index: nat)

  function VariableOf(s: State, name: string): Variable {
    if SlotOf(s, name).Some? then SlotVariable(|s.frames| - 1, ParamIndex(s, name)) else GlobalVariable(name)
  }

  predicate IsThere(s: State, x: Variable) {
    x.SlotVariable? ==> x.depth < |s.frames| && x.index < |s.frames[x.depth].slots|
  }

  /** Its value; unset for a global that nothing has named yet. */
  function Held(s: State, x: Variable): AwkValue {
    match x
    case GlobalVariable(n) => GlobalOf(s, n).scalar
    case SlotVariable(d, i) => if IsThere(s, x) then s.frames[d].slots[i].scalar else Uninit
  }

  lemma HeldByName(s: State, name: string)
    requires Sound(s)
    ensures ScalarOf(s, name) == Held(s, VariableOf(s, name)) && IsThere(s, VariableOf(s, name))
  {
    SlotFound(s, name);
    hide Sound;
  }

  /** An assignment sets its own variable and no other. */
  lemma AssignedSets(s: State, name: string, v: AwkValue, x: Variable)
    requires Sound(s) && IsThere(s, x)
    ensures Held(Assigned(s, name, v), x) == if x == VariableOf(s, name) then v else Held(s, x)
  {
    SlotFound(s, name);
    hide Sound;
  }

  /** Reading sets none, and neither does what is done with arrays. */
  lemma OthersSetNone(s: State, name: string, act: Act, x: Variable)
    requires Sound(s) && IsThere(s, x)
    ensures Held(Touched(s, name), x) == Held(s, x) && Held(AttachArray(s, name), x) == Held(s, x)
    ensures Held(Updated(s, name, act), x) == Held(s, x)
  {
    AttachSetsNone(s, name, x);
    HeapHoldsNone(AttachArray(s, name), Updated(s, name, act), x);
    hide Sound, AttachArray;
  }

  lemma AttachSetsNone(s: State, name: string, x: Variable)
    requires Sound(s) && IsThere(s, x)
    ensures Held(AttachArray(s, name), x) == Held(s, x)
  {
    SlotFound(s, name);
    hide Sound;
  }

  lemma HeapHoldsNone(s: State, t: State, x: Variable)
    requires t.frames == s.frames && t.globals == s.globals
    ensures Held(t, x) == Held(s, x)
  {
  }

  /** What a run assigns to a variable, in order, with the assignments in the argument
      expressions and the bodies of its calls. */
  ghost function ActsSet(funcs: map<string, Func>, s: State, acts: seq<Act>, x: Variable): seq<AwkValue>
    decreases acts, 0
  {
    if acts == [] then []
    else
      var front := acts[..|acts| - 1];
      ActsSet(funcs, s, front, x) + ActSets(funcs, RunActs(funcs, s, front), acts[|acts| - 1], x)
  }

  ghost function ActSets(funcs: map<string, Func>, s: State, act: Act, x: Variable): seq<AwkValue>
    decreases act, 1
  {
    if act.Call? then CallSets(funcs, s, act, x)
    else if act.AssignScalar? && VariableOf(s, act.name) == x then [act.value]
    else []
  }

  ghost function CallSets(funcs: map<string, Func>, s: State, call: Act, x: Variable): seq<AwkValue>
    requires call.Call?
    decreases call, 0
  {
    if call.fn !in funcs then []
    else
      var fn := funcs[call.fn];
      ArgsSet(funcs, s, fn, call.args, |fn.params|, x) + ActsSet(funcs, Entered(funcs, s, fn, call.args), call.body, x)
  }

  ghost function ArgsSet(funcs: map<string, Func>, s: State, fn: Func, args: seq<Arg>, n: nat, x: Variable): seq<AwkValue>
    decreases args, 1, n
  {
    if n == 0 then []
    else if n - 1 >= |args| then ArgsSet(funcs, s, fn, args, n - 1, x)
    else
      ArgsSet(funcs, s, fn, args, n - 1, x)
      + ArgSets(funcs, BuildSlots(funcs, s, fn, args, n - 1).after, args[n - 1], x)
  }

  ghost function ArgSets(funcs: map<string, Func>, s: State, arg: Arg, x: Variable): seq<AwkValue>
    decreases arg, 0
  {
    if arg.Bare? then [] else ActsSet(funcs, s, arg.acts, x)
  }

  function Latest(v: AwkValue, values: seq<AwkValue>): AwkValue {
    if values == [] then v else values[|values| - 1]
  }

  /** From one state to the other the variable takes on these values. */
  ghost predicate TakesOn(s: State, t: State, x: Variable, values: seq<AwkValue>) {
    IsThere(s, x) && IsThere(t, x) && Held(t, x) == Latest(Held(s, x), values)
  }

  lemma TakesOnMore(s: State, t: State, u: State, x: Variable, v: seq<AwkValue>, w: seq<AwkValue>)
    requires TakesOn(s, t, x, v) && TakesOn(t, u, x, w)
    ensures TakesOn(s, u, x, v + w)
  {
  }

  lemma TakesOnNothing(s: State, t: State, x: Variable)
    requires IsThere(s, x) && IsThere(t, x) && Held(t, x) == Held(s, x)
    ensures TakesOn(s, t, x, [])
  {
  }

  lemma IsThereStill(s: State, t: State, x: Variable)
    requires Keeps(s, t) && IsThere(s, x)
    ensures IsThere(t, x)
  {
  }

  lemma {:induction false} ArgTakesOn(funcs: map<string, Func>, s: State, arg: Arg, wantsArray: bool, x: Variable)
    requires Sound(s) && IsThere(s, x)
    ensures TakesOn(s, PassOne(funcs, s, arg, wantsArray).after, x, ArgSets(funcs, s, arg, x))
    decreases arg, 0
  {
    hide Sound, Keeps, TakesOn, AttachArray, Touched, IsThere;
    match arg {
      case Bare(name) =>
        PassKeeps(funcs, s, arg, wantsArray);
        IsThereStill(s, PassOne(funcs, s, arg, wantsArray).after, x);
        OthersSetNone(s, name, DeleteAll(name), x);
        TakesOnNothing(s, PassOne(funcs, s, arg, wantsArray).after, x);
      case Other(acts, result) =>
        RunTakesOn(funcs, s, acts, x);
    }
  }

  lemma {:induction false} ArgsTakeOn(funcs: map<string, Func>, s: State, fn: Func, args: seq<Arg>, n: nat, x: Variable)
    requires Sound(s) && IsThere(s, x)
    ensures TakesOn(s, BuildSlots(funcs, s, fn, args, n).after, x, ArgsSet(funcs, s, fn, args, n, x))
    decreases args, 1, n
  {
    hide Sound, Keeps, TakesOn, PassOne, ArgSets, IsThere;
    if n == 0 {
      TakesOnNothing(s, s, x);
    } else {
      ArgsTakeOn(funcs, s, fn, args, n - 1, x);
      if n - 1 < |args| {
        var b := BuildSlots(funcs, s, fn, args, n - 1).after;
        BuildKeeps(funcs, s, fn, args, n - 1);
        IsThereStill(s, b, x);
        ArgTakesOn(funcs, b, args[n - 1], WantsArray(fn, n - 1), x);
        TakesOnMore(s, b, BuildSlots(funcs, s, fn, args, n).after, x, ArgsSet(funcs, s, fn, args, n - 1, x),
                    ArgSets(funcs, b, args[n - 1], x));
      }
    }
  }

  lemma {:induction false} CallTakesOn(funcs: map<string, Func>, s: State, call: Act, x: Variable)
    requires Sound(s) && call.Call? && IsThere(s, x)
    ensures TakesOn(s, RunCall(funcs, s, call), x, CallSets(funcs, s, call, x))
    decreases call, 0
  {
    hide Sound, Keeps, RunActs, BuildSlots, ActsSet, ArgsSet, TakesOn, IsThere, Popped;
    if call.fn !in funcs {
      TakesOnNothing(s, s, x);
      return;
    }
    var fn := funcs[call.fn];
    var b, entered := BuildSlots(funcs, s, fn, call.args, |fn.params|).after, Entered(funcs, s, fn, call.args);
    var inner := RunActs(funcs, entered, call.body);
    EnterKeeps(funcs, s, fn, call.args);
    ArgsTakeOn(funcs, s, fn, call.args, |fn.params|, x);
    IsThereStill(s, b, x);
    FrameOnTop(b, entered, x);
    TakesOnMore(s, b, entered, x, ArgsSet(funcs, s, fn, call.args, |fn.params|, x), []);
    NothingAdded(ArgsSet(funcs, s, fn, call.args, |fn.params|, x));
    RunTakesOn(funcs, entered, call.body, x);
    TakesOnMore(s, entered, inner, x, ArgsSet(funcs, s, fn, call.args, |fn.params|, x), ActsSet(funcs, entered, call.body, x));
    RunKeeps(funcs, entered, call.body);
    FrameOffTop(b, entered, inner, x);
    TakesOnMore(s, inner, RunCall(funcs, s, call), x, CallSets(funcs, s, call, x), []);
    NothingAdded(CallSets(funcs, s, call, x));
  }

  lemma NothingAdded(values: seq<AwkValue>)
    ensures values + [] == values
  {
  }

  lemma FrameOnTop(b: State, entered: State, x: Variable)
    requires IsThere(b, x) && |entered.frames| == |b.frames| + 1 && entered.frames[..|b.frames|] == b.frames
    requires entered.globals == b.globals
    ensures IsThere(entered, x) && TakesOn(b, entered, x, [])
  {
    assert forall d :: 0 <= d < |b.frames| ==> entered.frames[d] == entered.frames[..|b.frames|][d];
  }

  lemma FrameOffTop(b: State, entered: State, inner: State, x: Variable)
    requires IsThere(b, x) && |entered.frames| == |b.frames| + 1 && entered.frames[..|b.frames|] == b.frames
    requires Keeps(entered, inner)
    ensures inner.frames != [] && TakesOn(inner, Popped(inner), x, [])
  {
    assert forall d :: 0 <= d < |b.frames| ==> entered.frames[d] == entered.frames[..|b.frames|][d];
    assert forall d :: 0 <= d < |b.frames| ==> inner.frames[d] == b.frames[d];
  }

  /** After a run a variable holds what was assigned to it last, whatever calls lie between,
      and what it held before if nothing was. */
  lemma {:induction false} RunTakesOn(funcs: map<string, Func>, s: State, acts: seq<Act>, x: Variable)
    requires Sound(s) && IsThere(s, x)
    ensures TakesOn(s, RunActs(funcs, s, acts), x, ActsSet(funcs, s, acts, x))
    decreases acts, 0
  {
    hide Sound, Keeps, RunAct, ActSets, TakesOn, IsThere;
    if acts == [] {
      TakesOnNothing(s, s, x);
    } else {
      var front, last := acts[..|acts| - 1], acts[|acts| - 1];
      var t := RunActs(funcs, s, front);
      RunTakesOn(funcs, s, front, x);
      RunKeeps(funcs, s, front);
      IsThereStill(s, t, x);
      ActTakesOn(funcs, t, last, x);
      TakesOnMore(s, t, RunActs(funcs, s, acts), x, ActsSet(funcs, s, front, x), ActSets(funcs, t, last, x));
    }
  }

  lemma {:induction false} ActTakesOn(funcs: map<string, Func>, s: State, act: Act, x: Variable)
    requires Sound(s) && IsThere(s, x)
    ensures TakesOn(s, RunAct(funcs, s, act), x, ActSets(funcs, s, act, x))
    decreases act, 1
  {
    if act.Call? {
      CallTakesOn(funcs, s, act, x);
      hide RunCall, CallSets, TakesOn;
      return;
    }
    RunActKeeps(funcs, s, act);
    IsThereStill(s, RunAct(funcs, s, act), x);
    OthersSetNone(s, act.name, act, x);
    hide Sound, Keeps, Updated, RunCall, CallSets, Touched, Assigned, IsThere, Held, VariableOf;
    if act.AssignScalar? {
      AssignedSets(s, act.name, act.value, x);
    }
  }

  // ---------- the interpreter ----------

  class Interp {
    const funcs: map<string, Func>
    var globals: map<string, Global>
    var frames: seq<Frame>
    var heap: map<ArrayId, Contents>

    function S(): State
      reads this
    {
      State(globals, frames, heap)
    }

    ghost predicate Valid()
      reads this
    {
      && Sound(S())
      && forall f :: f in funcs ==> |funcs[f].paramIsArray| == |funcs[f].params|
    }

    constructor (funcs: map<string, Func>)
      requires forall f :: f in funcs ==> |funcs[f].paramIsArray| == |funcs[f].params|
      ensures Valid() && frames == [] && heap == map[] && globals == map[]
    {
      this.funcs := funcs;
      globals, frames, heap := map[], [], map[];
    }

    method FrameParamIndex(name: string) returns (pi: int)
      ensures pi == ParamIndex(S(), name)
    {
      pi := -1;
      if |frames| > 0 {
        var names, i := frames[|frames| - 1].names, 0;
        while i < |names|
          invariant 0 <= i <= |names|
          invariant ParamIndexFrom(names, name, 0) == ParamIndexFrom(names, name, i)
        {
          if names[i] == name {
            return i;
          }
          i := i + 1;
        }
      }
    }

    /** The address of a fresh empty array. */
    method NewArray() returns (id: ArrayId)
      ensures id == FreshId(heap.Keys, 0) && id !in heap
    {
      id := 0;
      ghost var rest := heap.Keys;
      while id in heap
        invariant rest <= heap.Keys && forall x :: x in heap && x !in rest ==> x < id
        invariant FreshId(heap.Keys, 0) == FreshId(rest, id)
        decreases rest
      {
        rest := rest - {id};
        id := id + 1;
      }
    }

    /** The array `name` stands for here; an untyped name becomes an array now. */
    method GetArrayFor(name: string) returns (id: ArrayId)
      requires Valid()
      modifies this
      ensures S() == AttachArray(old(S()), name) && Valid() && Keeps(old(S()), S())
      ensures Resolve(S(), name) == Some(id) && id in heap
      ensures Resolve(old(S()), name).Some? ==> S() == old(S())
      ensures Resolve(old(S()), name).None? ==> heap == old(heap)[id := map[]] && id !in old(heap)
    {
      hide Sound, Keeps;
      AttachKeeps(S(), name);
      SlotFound(S(), name);
      var pi := FrameParamIndex(name);
      if pi >= 0 {
        var d := |frames| - 1;
        var slot := frames[d].slots[pi];
        if slot.arr.None? {
          id := NewArray();
          var owned := Slot(slot.scalar, Some(id), true, true);
          frames := frames[d := frames[d].(slots := frames[d].slots[pi := owned])];
          heap := heap[id := map[]];
        } else {
          id := slot.arr.value;
        }
      } else {
        var g := if name in globals then globals[name] else Global(Uninit, None, false);
        if g.arr.None? {
          id := NewArray();
          globals := globals[name := g.(arr := Some(id), isArray := true)];
          heap := heap[id := map[]];
        } else {
          id := g.arr.value;
        }
      }
    }

    method GetScalar(name: string) returns (v: AwkValue)
      requires Valid()
      modifies this
      ensures S() == Touched(old(S()), name) && Valid() && Keeps(old(S()), S())
      ensures heap == old(heap) && frames == old(frames)
      ensures ParamIndex(old(S()), name) == -1 ==> name in globals && v == globals[name].scalar
      ensures v == ScalarOf(old(S()), name)
    {
      hide Sound, Keeps;
      TouchKeeps(S(), name);
      SlotFound(S(), name);
      var pi := FrameParamIndex(name);
      if pi >= 0 {
        v := frames[|frames| - 1].slots[pi].scalar;
      } else {
        if name !in globals {
          globals := globals[name := Global(Uninit, None, false)];
        }
        v := globals[name].scalar;
        assert globals == globals[name := globals[name]];
      }
    }

    method SetScalar(name: string, v: AwkValue)
      requires Valid()
      modifies this
      ensures S() == Assigned(old(S()), name, v) && Valid() && Keeps(old(S()), S())
      ensures heap == old(heap) && ScalarOf(S(), name) == v
      ensures forall x :: IsThere(old(S()), x) ==>
                Held(S(), x) == if x == VariableOf(old(S()), name) then v else Held(old(S()), x)
    {
      forall x | IsThere(S(), x)
        ensures Held(Assigned(S(), name, v), x) == if x == VariableOf(S(), name) then v else Held(S(), x)
      {
        AssignedSets(S(), name, v, x);
      }
      hide Held, IsThere, VariableOf;
      hide Sound, Keeps;
      AssignKeeps(S(), name, v);
      SlotFound(S(), name);
      var pi := FrameParamIndex(name);
      if pi >= 0 {
        var d := |frames| - 1;
        frames := frames[d := frames[d].(slots := frames[d].slots[pi := frames[d].slots[pi].(scalar := v)])];
      } else {
        var g := if name in globals then globals[name] else Global(Uninit, None, false);
        globals := globals[name := g.(scalar := v)];
      }
    }

    /** Assigning, reading, deleting or clearing through a name reaches the one
        array the name stands for, wherever that array is owned. */
    method Update(name: string, act: Act)
      requires Valid() && OnArray(act) && act.name == name
      modifies this
      ensures S() == Updated(old(S()), name, act) && Valid() && Keeps(old(S()), S())
      ensures Resolve(S(), name).Some?
      ensures var id := Resolve(S(), name).value;
              heap == old(heap)[id := UpdateContents(if id in old(heap) then old(heap)[id] else map[], act)]
      ensures ElementsFollow(old(S()), S(), name, act)
    {
      hide *;
      StateFields(this);
      ghost var s := S();
      UpdatedFollows(s, name, act);
      UpdateKeeps(s, name, act);
      var id := GetArrayFor(name);
      StateFields(this);
      UpdatedIs(s, S(), name, act, id);
      heap := heap[id := UpdateContents(heap[id], act)];
      StateFields(this);
    }

    /** Decides for each argument whether the parameter becomes an alias or a scalar. */
    method BuildFrame(fn: Func, args: seq<Arg>) returns (fr: Frame)
      requires Valid() && |fn.paramIsArray| == |fn.params|
      modifies this
      ensures Building(S(), fr.slots) == BuildSlots(funcs, old(S()), fn, args, |fn.params|)
      ensures Valid() && Keeps(old(S()), S())
      ensures fr.names == fn.params && Pushable(S(), fr)
      ensures forall k :: 0 <= k < |fr.slots| ==>
                SlotFor(BuildSlots(funcs, old(S()), fn, args, k).after, S(), fn, args, k, fr.slots[k])
      ensures forall k :: 0 <= k < |fr.slots| && k < |args| && args[k].Bare? && Resolve(old(S()), args[k].name).Some? ==>
                fr.slots[k].arr == Resolve(old(S()), args[k].name)
      decreases args, 1
    {
      hide Sound, Keeps, Passable, SlotFor, PassOne;
      var slots := [];
      var i := 0;
      while i < |fn.params|
        invariant 0 <= i <= |fn.params| && Valid()
        invariant Building(S(), slots) == BuildSlots(funcs, old(S()), fn, args, i)
      {
        if i < |args| {
          var slot := PassArgument(args[i], fn.paramIsArray[i]);
          slots := slots + [slot];
        } else {
          slots := slots + [FRESH_SLOT];
        }
        i := i + 1;
      }
      fr := Frame(fn.params, slots);
      EnterKeeps(funcs, old(S()), fn, args);
      forall k | 0 <= k < |slots|
        ensures SlotFor(BuildSlots(funcs, old(S()), fn, args, k).after, S(), fn, args, k, slots[k])
      {
        ArgumentPassed(funcs, old(S()), fn, args, k, |fn.params|);
      }
      forall k | 0 <= k < |slots| && k < |args| && args[k].Bare? && Resolve(old(S()), args[k].name).Some?
        ensures slots[k].arr == Resolve(old(S()), args[k].name)
      {
        ArrayStaysPassed(funcs, old(S()), fn, args, k);
      }
    }

    method PassArgument(arg: Arg, wantsArray: bool) returns (slot: Slot)
      requires Valid()
      modifies this
      ensures Passing(S(), slot) == PassOne(funcs, old(S()), arg, wantsArray)
      ensures Valid() && Keeps(old(S()), S()) && Passable(S(), slot)
      ensures arg.Bare? && wantsArray && Untyped(old(S()), arg.name) ==> slot.isArray
      ensures arg.Bare? && slot.isArray ==> slot.arr == Resolve(S(), arg.name)
      ensures arg.Bare? && Resolve(old(S()), arg.name).Some? ==> slot.arr == Resolve(old(S()), arg.name)
      ensures arg.Bare? && !slot.isArray ==> slot.scalar == ScalarOf(old(S()), arg.name)
      ensures arg.Other? ==> !slot.isArray && slot.scalar == arg.result
      decreases arg, 0
    {
      hide Sound, Keeps, Passable;
      PassKeeps(funcs, S(), arg, wantsArray);
      slot := FRESH_SLOT;
      match arg {
        case Bare(name) =>
          SlotFound(S(), name);
          var pi := FrameParamIndex(name);
          var isArr, existing, isUntyped := false, None, false;
          if pi >= 0 {
            var s := frames[|frames| - 1].slots[pi];
            isArr, existing, isUntyped := s.isArray, s.arr, !s.isArray && s.scalar == Uninit;
          } else if name in globals {
            isArr, existing := globals[name].isArray, globals[name].arr;
          } else {
            isUntyped := true;
          }
          if isArr && existing.Some? {
            return Slot(Uninit, existing, true, false);
          }
          if isUntyped && wantsArray {
            var id := GetArrayFor(name);
            return Slot(Uninit, Some(id), true, false);
          }
          var v := GetScalar(name);
          slot := slot.(scalar := v);
        case Other(acts, result) =>
          Exec(acts);
          slot := slot.(scalar := result);
      }
    }

    /** Every terminating run of a call leaves the caller's frames, the frame
        depth and the caller's arrays in place, and leaks nothing. */
    method CallUser(call: Act)
      requires Valid() && call.Call?
      modifies this
      ensures S() == RunCall(funcs, old(S()), call)
      ensures Valid() && Keeps(old(S()), S())
      decreases call, 0
    {
      hide Sound, Keeps, Popped, BuildSlots, RunActs, SlotFor;
      RunCallKeeps(funcs, S(), call);
      if call.fn !in funcs {
        return;
      }
      ghost var before := S();
      EnterKeeps(funcs, before, funcs[call.fn], call.args);
      var fr := BuildFrame(funcs[call.fn], call.args);
      ghost var caller := S();
      frames := frames + [fr];
      RunKeeps(funcs, S(), call.body);
      Exec(call.body);
      FramePushed(caller, fr);
      CallKeeps(caller, fr, S());
      PopFrame();
    }

    method PopFrame()
      requires Valid() && |frames| > 0 && Sound(Popped(S()))
      modifies this
      ensures Valid() && S() == Popped(old(S()))
    {
      var popped := frames[|frames| - 1];
      var freed: set<ArrayId> := {};
      var i := 0;
      while i < |popped.slots|
        invariant 0 <= i <= |popped.slots|
        invariant frames == old(frames) && globals == old(globals) && heap == old(heap) - freed
        invariant freed == set k | 0 <= k < i && popped.slots[k].owns && popped.slots[k].arr.Some? :: popped.slots[k].arr.value
      {
        if popped.slots[i].owns && popped.slots[i].arr.Some? {
          heap := heap - {popped.slots[i].arr.value};
          freed := freed + {popped.slots[i].arr.value};
        }
        i := i + 1;
      }
      frames := frames[..|frames| - 1];
    }

    method Exec(acts: seq<Act>)
      requires Valid()
      modifies this
      ensures S() == RunActs(funcs, old(S()), acts)
      ensures Valid() && Keeps(old(S()), S())
      ensures forall id :: id in old(heap) ==>
                id in heap && heap[id] == A.RunModel(old(heap)[id], ActsOps(funcs, old(S()), acts, id)).0
      ensures forall x :: IsThere(old(S()), x) ==> TakesOn(old(S()), S(), x, ActsSet(funcs, old(S()), acts, x))
      decreases acts, 0
    {
      forall x | IsThere(S(), x)
        ensures TakesOn(S(), RunActs(funcs, S(), acts), x, ActsSet(funcs, S(), acts, x))
      {
        RunTakesOn(funcs, S(), acts, x);
      }
      forall id | id in heap
        ensures GoesThrough(S(), RunActs(funcs, S(), acts), id, ActsOps(funcs, S(), acts, id))
      {
        RunGoes(funcs, S(), acts, id);
      }
      hide Sound, Keeps, Touched, Assigned, Updated, RunCall, TakesOn, IsThere, ActsSet;
      RunKeeps(funcs, S(), acts);
      var i := 0;
      while i < |acts|
        invariant 0 <= i <= |acts| && Valid()
        invariant S() == RunActs(funcs, old(S()), acts[..i])
      {
        assert acts[..i + 1][..i] == acts[..i];
        match acts[i] {
          case ReadScalar(name) =>
            var _ := GetScalar(name);
          case AssignScalar(name, v) =>
            SetScalar(name, v);
          case Call(_, _, _) =>
            CallUser(acts[i]);
          case _ =>
            Update(acts[i].name, acts[i]);
        }
        i := i + 1;
      }
      assert acts[..i] == acts;
    }
  }
}

/** The runtime's operations on the counted heap. Every operation keeps the
    invariant of `RefCount`, so counters stay exact over any run of them. */
module RefCRuntime {
  import opened RefCount

  class Runtime {
    var objs: seq<Obj>
    ghost var out: seq<multiset<nat>>
    ghost var owners: multiset<nat>
    ghost var busy: set<nat>
    ghost var dying: set<nat>

    ghost function S(): State
      reads this
    {
      State(objs, out, owners, busy, dying)
    }

    constructor ()
      ensures S() == State([], [], multiset{}, {}, {}) && S().Inv()
    {
      objs, out, owners, busy, dying := [], [], multiset{}, {}, {};
    }

    /** `idris2_newValue` and the constructors on top of it: count one, owned by the
        caller, who hands over the references put in the fields. */
    method NewValue(k: Kind) returns (a: nat)
      requires S().Inv() && Ptrs(Fields(k)) <= owners
      modifies this
      ensures a == old(|objs|) && S() == Allocated(old(S()), k) && S().Inv()
    {
      AllocateKeeps(S(), k);
      a := |objs|;
      objs := objs + [Obj(1, true, k)];
      out := out + [Ptrs(Fields(k))];
      owners := owners - Ptrs(Fields(k)) + multiset{a};
    }

    /** A predefined value: immortal from the start. */
    method NewPredefined() returns (a: nat)
      requires S().Inv()
      modifies this
      ensures a == old(|objs|) && S() == Predefined(old(S())) && S().Inv()
    {
      PredefinedKeeps(S());
      a := |objs|;
      objs := objs + [Obj(REFCOUNTER_MAX, true, Leaf)];
      out := out + [multiset{}];
    }

    /** One more reference: counted unless the object is immortal, which it becomes
        when its counter saturates. */
    method NewReference(source: Ref) returns (r: Ref)
      requires S().Inv() && (source.Ptr? ==> S().Usable(source.a))
      modifies this
      ensures r == source && S().Inv()
      ensures S() == Referenced(old(S()), source)
    {
      if source.Ptr? {
        var o := objs[source.a];
        IncrementKeeps(S(), source.a);
        if o.rc != REFCOUNTER_MAX {
          objs := objs[source.a := o.(rc := o.rc + 1)];
        }
        assert objs == Incremented(old(S()), source.a).objs;
        owners := owners + multiset{source.a};
      }
      r := source;
    }

    /** Give up one reference the caller owns. When it is the last one the object's
        own references are released in turn and the object is freed. Objects that
        are being changed must be held by another owner. */
    method RemoveReference(elem: Ref)
      requires S().Inv() && Token(elem) <= owners
      requires forall a: nat :: a in busy && a !in dying ==> a in owners - Token(elem)
      modifies this
      ensures S().Inv() && owners == old(owners) - Token(elem) && OnlyReleased(old(S()), S())
      ensures S().Measure() <= old(S().Measure())
      decreases S().Measure(), 1
    {
      ghost var s := S();
      if elem.Ptr? {
        var a := elem.a;
        assert a in owners && s.Usable(a) && s.CountedAt(a);
        hide State.Inv, State.Measure, OnlyReleased, Sum;
        if objs[a].rc == REFCOUNTER_MAX {
          DropImmortalKeeps(s, a);
          Account(s.(owners := owners - multiset{a}));
        } else if objs[a].rc != 1 {
          DecrementOnly(s, a);
          Drop(a);
        } else {
          Release(a);
        }
      } else {
        ReleasedNothing(s);
      }
    }

    /** Move to bookkeeping that describes the same heap. */
    ghost method Account(t: State)
      requires objs == t.objs
      modifies this`out, this`owners, this`busy, this`dying
      ensures S() == t
    {
      out, owners, busy, dying := t.out, t.owners, t.busy, t.dying;
    }

    /** Give up one of several references to an object. */
    method Drop(c: nat)
      requires S().Inv() && c in owners && c < |objs| && 1 < objs[c].rc < REFCOUNTER_MAX
      modifies this
      ensures S() == Decremented(old(S()), c) && S().Inv() && S().Measure() <= old(S().Measure())
    {
      ghost var t := Decremented(S(), c);
      DecrementKeeps(S(), c);
      hide State.Inv, State.Measure;
      objs := objs[c := objs[c].(rc := objs[c].rc - 1)];
      Account(t);
    }

    /** `free` on an object whose references have been released. */
    method Free(a: nat)
      requires S().Inv() && a in dying
      modifies this
      ensures S() == Freed(old(S()), a) && S().Inv() && S().Measure() == old(S().Measure())
    {
      ghost var t := Freed(S(), a);
      FreeKeeps(S(), a);
      hide State.Inv, State.Measure;
      objs := objs[a := objs[a].(live := false)];
      Account(t);
    }

    method Release(a: nat)
      requires S().Inv() && a in owners && a < |objs| && objs[a].rc == 1
      requires forall c: nat :: c in busy && c !in dying ==> c in owners - multiset{a}
      modifies this
      ensures S().Inv() && owners == old(owners) - multiset{a} && OnlyReleased(old(S()), S())
      ensures S().Measure() <= old(S().Measure())
      decreases S().Measure(), 0
    {
      ghost var s := S();
      NotBusy(s, a);
      ReleaseKeeps(s, a);
      assert |out| == |objs|;
      var fs := Fields(objs[a].kind);
      ghost var rest := owners - multiset{a};
      ghost var r := Released(s, a);
      Account(r);
      assert owners == rest + Ptrs(fs[0..]) by { assert fs[0..] == fs; }
      assert OnlyReleased(r, r);
      ReleaseLoop(fs, rest);
      ReleaseOnly(s, a, S());
      hide State.Inv, State.Measure;
      Free(a);
    }

    /** The loop that gives up the references of a released object. */
    method ReleaseLoop(fs: seq<Ref>, ghost rest: multiset<nat>)
      requires S().Inv() && owners == rest + Ptrs(fs)
      requires forall c: nat :: c in busy && c !in dying ==> c in rest
      modifies this
      ensures S().Inv() && owners == rest && OnlyReleased(old(S()), S())
      ensures S().Measure() <= old(S().Measure())
      decreases S().Measure(), 2
    {
      ghost var r := S();
      assert fs[0..] == fs;
      hide State.Inv, State.Measure;
      for i := 0 to |fs|
        invariant S().Inv() && owners == rest + Ptrs(fs[i..])
        invariant S().Measure() <= r.Measure()
        invariant OnlyReleased(r, S())
      {
        ghost var t := S();
        PtrsSplit(fs, i);
        assert owners - Token(fs[i]) == rest + Ptrs(fs[i + 1..]);
        RemoveReference(fs[i]);
        OnlyReleasedTrans(r, t, S());
      }
      assert fs[|fs|..] == [];
    }

    /** `idris2_Data_IORef_prim__newIORef`: the cell counts its own reference. */
    method NewIORef(v: Ref) returns (a: nat)
      requires S().Inv() && (v.Ptr? ==> S().Usable(v.a))
      modifies this
      ensures S().Inv() && a == old(|objs|) && owners == old(owners) + multiset{a}
      ensures |objs| == a + 1 && objs[a] == Obj(1, true, IORef(v)) && SameShape(old(objs), objs, a)
      ensures busy == old(busy) && dying == old(dying)
    {
      hide State.Inv, State.Usable, Filled, SameShape, Ptrs, Allocated, Sum, Referenced;
      ghost var s := S();
      AllocatedOnly(s, IORef(Null));
      a := NewValue(IORef(Null));
      ghost var t := S();
      FilledSelf(t, a);
      FilledUsable(t, t, a, v);
      SlotCounter(t, a, v);
      FillSlot(a, IORef(v), 0, v);
      FilledUsable(t, S(), a, v);
      FilledShape(s, t, S(), a);
    }

    /** Overwrite the fields of an object, which takes over the references it gets
        and hands back those it had. */
    method Fill(a: nat, k: Kind)
      requires S().Inv() && S().Usable(a) && |out| == |objs| && Ptrs(Fields(k)) <= owners + out[a]
      modifies this
      ensures S() == Refilled(old(S()), a, k) && S().Inv()
    {
      ghost var t := Refilled(S(), a, k);
      RefillKeeps(S(), a, k);
      hide State.Inv;
      objs := objs[a := objs[a].(kind := k)];
      Account(t);
    }

    /** `idris2_Data_IORef_prim__writeIORef` through a reference the caller owns. The
        old content may lead back to the cell itself. */
    method WriteIORef(a: nat, v: Ref)
      requires S().Inv() && busy == {} && a in owners && a < |objs| && objs[a].kind.IORef?
      requires v.Ptr? ==> S().Usable(v.a)
      modifies this
      ensures S().Inv() && busy == {} && owners == old(owners)
      ensures a < |objs| && objs[a].live && objs[a].kind == IORef(v)
      ensures |objs| == old(|objs|) && SameShape(old(objs), objs, a)
    {
      ghost var s := S();
      WriteReady(s, a, v);
      var was := objs[a].kind.v;
      hide *;
      var r := NewReference(v);
      WriteCell(s, S(), a, v, was);
      Fill(a, IORef(v));
      ghost var t := S();
      RemoveReference(was);
      AfterRelease(s, a, t, S());
    }

    /** `idris2_Data_IOArray_Prims_prim__arraySet` on an array and with a value that
        the caller owns. The old element is released while the slot still holds it,
        and that may lead back to the array. */
    method ArraySet(a: nat, i: nat, v: Ref)
      requires S().Inv() && busy == {} && a in owners && Token(v) <= owners
      requires a < |objs| && objs[a].kind.Array? && i < |objs[a].kind.elems|
      modifies this
      ensures S().Inv() && busy == {} && owners == old(owners)
      ensures a < |objs| && objs[a].live && objs[a].kind == Array(old(objs[a].kind.elems)[i := v])
      ensures |objs| == old(|objs|) && SameShape(old(objs), objs, a)
    {
      ghost var s := S();
      var elems := objs[a].kind.elems;
      SetReady(s, a, i);
      hide *;
      Account(Detached(s, a, elems[i]));
      RemoveReference(elems[i]);
      SlotReleased(s, S(), a, elems[i]);
      Owned(S(), v);
      ghost var t := S();
      PutSlot(a, elems, i, v);
      SameShapeTrans(s, t, S(), a);
    }

    /** The second half of `ArraySet`: the slot's reference has been given up. */
    method PutSlot(a: nat, elems: seq<Ref>, i: nat, v: Ref)
      requires S().Inv() && S().Usable(a) && |out| == |objs| && busy == {a} && i < |elems|
      requires (v.Ptr? ==> S().Usable(v.a)) && out[a] == Ptrs(elems) - Token(elems[i])
      modifies this
      ensures S().Inv() && PutDone(old(S()), S(), a, Array(elems[i := v]))
    {
      ghost var s := S();
      SetSlot(s, a, elems, i, v);
      hide *;
      var r := NewReference(v);
      Fill(a, Array(elems[i := r]));
      assert PutDone(s, S(), a, Array(elems[i := v]));
    }

    /** Put one more reference in an empty slot of a new object. */
    method FillSlot(a: nat, k: Kind, ghost i: nat, v: Ref)
      requires S().Inv() && S().Usable(a) && a !in busy && (v.Ptr? ==> S().Usable(v.a))
      requires i < |Fields(objs[a].kind)| && Fields(objs[a].kind)[i] == Null
      requires Fields(k) == Fields(objs[a].kind)[i := v]
      modifies this
      ensures S().Inv() && Filled(old(S()), S(), a) && objs[a].kind == k
      ensures forall b: nat :: b < |objs| ==> objs[b].rc == Referenced(old(S()), v).objs[b].rc
    {
      hide State.Inv, State.Usable, Ptrs, Filled, Token, Sum;
      ghost var s := S();
      SlotReady(s, a, k, i, v);
      SlotFilled(s, a, k, v);
      var r := NewReference(v);
      Fill(a, k);
    }

    /** `idris2_Data_IOArray_Prims_prim__newArray`: every slot counts its own
        reference to the initial value. */
    method NewArray(length: nat, v: Ref) returns (a: nat)
      requires S().Inv() && (v.Ptr? ==> S().Usable(v.a))
      modifies this
      ensures S().Inv() && a == old(|objs|) && owners == old(owners) + multiset{a}
      ensures |objs| == a + 1 && objs[a] == Obj(1, true, Array(seq(length, _ => v)))
      ensures SameShape(old(objs), objs, a) && busy == old(busy) && dying == old(dying)
    {
      ghost var s := S();
      hide State.Inv, State.Usable, Filled, SameShape, Ptrs, Allocated, Sum;
      AllocatedOnly(s, Array(Nulls(length)));
      hide Nulls, Fields;
      a := NewValue(Array(Nulls(length)));
      ghost var t := S();
      FillArray(a, length, v);
      FilledShape(s, t, S(), a);
    }

    method FillArray(a: nat, length: nat, v: Ref)
      requires S().Inv() && S().Usable(a) && a !in busy && objs[a] == Obj(1, true, Array(Nulls(length)))
      requires v.Ptr? ==> S().Usable(v.a) && v.a != a
      modifies this
      ensures S().Inv() && Filled(old(S()), S(), a)
      ensures |objs| == old(|objs|) && objs[a] == Obj(1, true, Array(seq(length, _ => v)))
    {
      ghost var t := S();
      Emptied(length, v);
      FilledSelf(t, a);
      assert a < |objs|;
      hide State.Inv, State.Usable, Filled, Filling, Nulls, Fields, Ptrs, Referenced;
      for i := 0 to length
        invariant S().Inv() && Filled(t, S(), a) && a < |objs|
        invariant objs[a] == Obj(1, true, Array(Filling(length, i, v)))
      {
        FilledUsable(t, S(), a, v);
        FillingNext(length, i, v);
        ghost var u := S();
        FillSlot(a, Array(objs[a].kind.elems[i := v]), i, v);
        SlotCounter(u, a, v);
        FilledUsable(u, S(), a, Null);
        FilledTrans(t, u, S(), a);
      }
    }

    /** Move a reference the caller owns into an empty slot. */
    method MoveIn(a: nat, k: Kind, ghost i: nat, v: Ref)
      requires S().Inv() && S().Usable(a) && a !in busy && Token(v) <= owners
      requires i < |Fields(objs[a].kind)| && Fields(objs[a].kind)[i] == Null
      requires Fields(k) == Fields(objs[a].kind)[i := v]
      modifies this
      ensures S().Inv() && owners == old(owners) - Token(v) && busy == old(busy) && dying == old(dying)
      ensures objs == old(objs)[a := old(objs[a]).(kind := k)]
    {
      TakeSlot(S(), a, k, i, v);
      hide State.Inv, Ptrs;
      Fill(a, k);
    }

    method MoveArgs(c: nat, n: nat, k: Kind)
      requires S().Inv() && busy == {} && c in owners && c < |objs| && objs[c].rc == 1
      requires S().Usable(n) && n != c
      requires forall i: nat :: i < |Fields(objs[n].kind)| ==> Fields(objs[n].kind)[i] == Null
      requires Ptrs(Fields(k)) == Ptrs(Fields(objs[c].kind))
      modifies this
      ensures S().Inv() && owners == old(owners) - multiset{c} && busy == {c} && dying == old(dying) + {c}
      ensures objs == old(objs)[n := old(objs[n]).(kind := k)]
    {
      ghost var s := S();
      MoveReady(s, c, n, k);
      hide State.Inv, Ptrs;
      Account(Released(s, c));
      Fill(n, k);
    }

    method CopyArgs(c: nat, n: nat, fn: int, arity: nat, args: seq<Ref>)
      requires S().Inv() && S().Usable(n) && n !in busy && c < |objs| && c != n
      requires objs[n] == Obj(1, true, Closure(fn, arity, Nulls(|args| + 1)))
      requires forall j: nat :: j < |args| && args[j].Ptr? ==> S().Usable(args[j].a) && args[j].a != n
      requires objs[c].rc + Ptrs(args)[c] < REFCOUNTER_MAX
      modifies this
      ensures S().Inv() && Filled(old(S()), S(), n) && c < |objs| && n < |objs|
      ensures objs[n] == Obj(1, true, Closure(fn, arity, args + [Null]))
      ensures objs[c].rc == old(objs[c].rc) + Ptrs(args)[c]
    {
      ghost var t := S();
      CopyingStarts(t, c, n, fn, arity, args);
      hide Copied, State.Inv, State.Usable, Ptrs;
      for i := 0 to |args|
        invariant Copied(t, S(), c, n, fn, arity, args, i)
      {
        CopyArg(t, c, n, fn, arity, args, i);
      }
      CopiedAll(t, S(), c, n, fn, arity, args);
    }

    method CopyArg(ghost t: State, ghost c: nat, n: nat, fn: int, arity: nat, args: seq<Ref>, i: nat)
      requires i < |args| && Copied(t, S(), c, n, fn, arity, args, i) && n < |objs| && c != n
      requires t.Usable(n) && n !in t.busy && c < |t.objs| && t.objs[c].rc + Ptrs(args)[c] < REFCOUNTER_MAX
      requires args[i].Ptr? ==> t.Usable(args[i].a) && args[i].a != n
      modifies this
      ensures Copied(t, S(), c, n, fn, arity, args, i + 1) && n < |objs|
    {
      hide State.Inv, State.Usable, Filled, Copying, Nulls, Ptrs, Referenced, Token;
      ghost var u := S();
      FilledUsable(t, u, n, args[i]);
      CopyingNext(args, i);
      PtrsPrefix(args, i, c);
      FillSlot(n, Closure(fn, arity, objs[n].kind.args[i := args[i]]), i, args[i]);
      SlotCounter(u, n, args[i]);
      BumpedCounter(u, c, args[i]);
      FilledUsable(u, S(), n, Null);
      FilledTrans(t, u, S(), n);
    }

    /** `idris2_tailcall_apply_closure`, consuming the caller's references to the
        closure and to the argument. The old arguments move to the new closure when
        the old one dies, and are counted once more when it does not. */
    method TailcallApplyClosure(c: nat, arg: Ref) returns (n: nat)
      requires S().Inv() && busy == {} && multiset{c} + Token(arg) <= owners
      requires c < |objs| && objs[c].kind.Closure? && objs[c].rc + Ptrs(objs[c].kind.args)[c] < REFCOUNTER_MAX
      modifies this
      ensures S().Inv() && busy == {} && owners == old(owners) - multiset{c} - Token(arg) + multiset{n}
      ensures n == old(|objs|) && |objs| == n + 1
      ensures var k := old(objs[c].kind); objs[n] == Obj(1, true, Closure(k.fn, k.arity, k.args + [arg]))
      ensures objs[c].kind == old(objs[c].kind) && (objs[c].live <==> old(objs[c].rc) > 1)
      ensures Kept(old(objs), objs, c, n)
    {
      ghost var s := S();
      var fn, arity, args := objs[c].kind.fn, objs[c].kind.arity, objs[c].kind.args;
      hide State.Inv, State.Usable, Ptrs, Kept, Nulls, Token;
      ExtendReady(s, c, arg);
      n := NewClosure(c, fn, arity, args);
      ExtendOwners(s.owners, c, n, arg);
      ghost var t := S();
      FillClosure(c, n, fn, arity, args, arg);
      ghost var u := S();
      KeptTrans(s.objs, t.objs, u.objs, c, n);
      LetGo(c, n);
      KeptTrans(s.objs, u.objs, objs, c, n);
    }

    /** `idris2_mkClosure` with room for one argument more. */
    method NewClosure(ghost c: nat, fn: int, arity: nat, args: seq<Ref>) returns (n: nat)
      requires S().Inv() && c < |objs|
      requires forall j: nat :: j < |args| && args[j].Ptr? ==> S().Usable(args[j].a)
      modifies this
      ensures S().Inv() && S().Usable(n) && n == old(|objs|) && |objs| == n + 1
      ensures objs[n] == Obj(1, true, Closure(fn, arity, Nulls(|args| + 1))) && objs[c] == old(objs[c])
      ensures owners == old(owners) + multiset{n} && busy == old(busy) && Kept(old(objs), objs, c, n)
      ensures forall j: nat :: j < |args| && args[j].Ptr? ==> S().Usable(args[j].a) && args[j].a != n
    {
      ghost var s := S();
      hide State.Inv, Ptrs, Allocated, Sum, Kept;
      AllocatedOnly(s, Closure(fn, arity, Nulls(|args| + 1)));
      n := NewValue(Closure(fn, arity, Nulls(|args| + 1)));
      KeptPrefix(s.objs, objs, c, n);
    }

    method FillClosure(c: nat, n: nat, fn: int, arity: nat, args: seq<Ref>, arg: Ref)
      requires S().Inv() && S().Usable(n) && busy == {} && c in owners && c < |objs| && c != n
      requires objs[c].rc >= 1 && objs[c].kind == Closure(fn, arity, args)
      requires objs[n] == Obj(1, true, Closure(fn, arity, Nulls(|args| + 1)))
      requires forall j: nat :: j < |args| && args[j].Ptr? ==> S().Usable(args[j].a) && args[j].a != n
      requires objs[c].rc + Ptrs(args)[c] < REFCOUNTER_MAX && Ptrs(args + [Null]) == Ptrs(args)
      requires Token(arg) <= owners - multiset{c} && Token(arg) <= owners
      modifies this
      ensures S().Inv() && |objs| == old(|objs|) && Kept(old(objs), objs, c, n)
      ensures objs[n] == Obj(1, true, Closure(fn, arity, args + [arg]))
      ensures objs[c].kind == old(objs[c].kind) && objs[c].live == old(objs[c].live)
      ensures old(objs[c].rc) <= objs[c].rc < REFCOUNTER_MAX && (old(objs[c].rc) == 1 <==> objs[c].rc == 1)
      ensures if old(objs[c].rc) == 1
              then owners == old(owners) - multiset{c} - Token(arg) && busy == {c} && c in dying
              else owners == old(owners) - Token(arg) && busy == {}
    {
      ghost var t := S();
      hide State.Inv, Ptrs, Kept, Nulls, Token;
      TransferArgs(c, n, fn, arity, args);
      ghost var u := S();
      LastSlot(args, arg);
      MoveIn(n, Closure(fn, arity, args + [arg]), |args|, arg);
      KeptUpdate(u.objs, c, n, objs[n]);
      KeptTrans(t.objs, u.objs, objs, c, n);
    }

    method TransferArgs(c: nat, n: nat, fn: int, arity: nat, args: seq<Ref>)
      requires S().Inv() && S().Usable(n) && busy == {} && c in owners && c < |objs| && c != n
      requires objs[c].rc >= 1 && objs[c].kind == Closure(fn, arity, args)
      requires objs[n] == Obj(1, true, Closure(fn, arity, Nulls(|args| + 1)))
      requires forall j: nat :: j < |args| && args[j].Ptr? ==> S().Usable(args[j].a) && args[j].a != n
      requires objs[c].rc + Ptrs(args)[c] < REFCOUNTER_MAX && Ptrs(args + [Null]) == Ptrs(args)
      modifies this
      ensures S().Inv() && |objs| == old(|objs|) && Kept(old(objs), objs, c, n)
      ensures objs[n] == Obj(1, true, Closure(fn, arity, args + [Null]))
      ensures objs[c].kind == old(objs[c].kind) && objs[c].live == old(objs[c].live)
      ensures old(objs[c].rc) <= objs[c].rc < REFCOUNTER_MAX && (old(objs[c].rc) == 1 <==> objs[c].rc == 1)
      ensures if old(objs[c].rc) == 1
              then owners == old(owners) - multiset{c} && busy == {c} && dying == old(dying) + {c}
              else owners == old(owners) && busy == {} && dying == old(dying)
    {
      hide State.Inv, Ptrs;
      if objs[c].rc <= 1 {
        MoveArgs(c, n, Closure(fn, arity, args + [Null]));
      } else {
        CopyArgs(c, n, fn, arity, args);
      }
    }

    /** Free a closure whose arguments have moved, or give up one reference to it. */
    method LetGo(c: nat, ghost n: nat)
      requires S().Inv() && c < |objs| && 1 <= objs[c].rc < REFCOUNTER_MAX && objs[c].live && c != n < |objs|
      requires if objs[c].rc == 1 then busy == {c} && c in dying else busy == {} && c in owners
      modifies this
      ensures S().Inv() && |objs| == old(|objs|) && busy == {} && Kept(old(objs), objs, c, n)
      ensures objs[n] == old(objs[n]) && objs[c].kind == old(objs[c].kind)
      ensures objs[c].live <==> old(objs[c].rc) > 1
      ensures owners == if old(objs[c].rc) == 1 then old(owners) else old(owners) - multiset{c}
    {
      hide State.Inv;
      if objs[c].rc == 1 {
        Free(c);
        assert {c} - {c} == {};
      } else {
        Drop(c);
      }
    }
  }
}

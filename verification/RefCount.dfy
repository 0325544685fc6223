/** The reference-counting heap of the RefC runtime
    (_/support/refc/memoryManagement.c, runtime.c, prim.c).

    Objects sit at addresses that are never reused. The counters are what the
    runtime stores; which references exist is tracked in ghost state: `out[a]` are
    the references object `a` accounts for, `owners` those held outside the heap. */
module RefCount {

  /** Counters saturate here; a saturated object is immortal. */
  const REFCOUNTER_MAX: nat := 65535

  datatype Ref = Null | Unboxed(i: int) | Ptr(a: nat)

  datatype Kind =
    | Leaf                                             // numbers, strings, buffers, raw pointers
    | Closure(fn: int, arity: nat, args: seq<Ref>)
    | Constructor(tag: int, args: seq<Ref>)
    | IORef(v: Ref)
    | Array(elems: seq<Ref>)

  datatype Obj = Obj(rc: nat, live: bool, kind: Kind)

  function Fields(k: Kind): seq<Ref> {
    match k
    case Leaf => []
    case Closure(_, _, args) => args
    case Constructor(_, args) => args
    case IORef(v) => [v]
    case Array(elems) => elems
  }

  function Token(r: Ref): multiset<nat> { if r.Ptr? then multiset{r.a} else multiset{} }

  function Ptrs(rs: seq<Ref>): multiset<nat> {
    if rs == [] then multiset{} else Token(rs[0]) + Ptrs(rs[1..])
  }

  /** How often `b` is referenced by some objects. */
  function Sum(out: seq<multiset<nat>>, b: nat): nat {
    if out == [] then 0 else out[0][b] + Sum(out[1..], b)
  }

  function Total(ws: seq<nat>): nat {
    if ws == [] then 0 else ws[0] + Total(ws[1..])
  }

  /** Runtime heap and ghost bookkeeping. `busy` objects are being changed, so
      their fields and `out` may differ; `dying` ones are being released. */
  datatype State = State(objs: seq<Obj>, out: seq<multiset<nat>>, owners: multiset<nat>,
                         busy: set<nat>, dying: set<nat>)
  {
    predicate Usable(b: nat) { b < |objs| && objs[b].live && b !in dying }

    predicate Mortal(b: nat)
      requires b < |objs|
    {
      objs[b].rc != REFCOUNTER_MAX
    }

    function Refs(b: nat): nat { Sum(out, b) + owners[b] }

    /** A mortal object's counter is exact and positive. */
    predicate CountedAt(b: nat) {
      Usable(b) && Mortal(b) ==> objs[b].rc == Refs(b) && objs[b].rc >= 1
    }

    ghost predicate Counted() { forall b: nat :: CountedAt(b) }

    /** Nothing refers to a released object. */
    ghost predicate NoDangling() {
      (forall b: nat :: b in owners ==> Usable(b)) &&
      (forall a: nat, b: nat :: a < |out| && b in out[a] ==> Usable(b))
    }

    ghost predicate Matches()
      requires |out| == |objs|
    {
      forall a: nat :: a < |objs| && a !in busy ==>
        out[a] == if objs[a].live then Ptrs(Fields(objs[a].kind)) else multiset{}
    }

    ghost predicate Inv() {
      && |out| == |objs| && dying <= busy
      && (forall a: nat :: a < |objs| ==> objs[a].rc <= REFCOUNTER_MAX)
      && (forall a :: a in busy ==> a < |objs|)
      && (forall a :: a in dying ==> out[a] == multiset{})
      && Counted() && NoDangling() && Matches()
    }

    /** The measure of a release: the counters of all usable objects. */
    function Weights(): (ws: seq<nat>)
      ensures |ws| == |objs|
    {
      seq(|objs|, i requires 0 <= i < |objs| => if objs[i].live && i !in dying then objs[i].rc else 0)
    }

    function Measure(): nat { Total(Weights()) }
  }

  lemma {:induction false} SumUpdate(out: seq<multiset<nat>>, a: nat, m: multiset<nat>, b: nat)
    requires a < |out|
    ensures Sum(out[a := m], b) == Sum(out, b) - out[a][b] + m[b] && Sum(out, b) >= out[a][b]
  {
    if a > 0 {
      SumUpdate(out[1..], a - 1, m, b);
      assert out[a := m][1..] == out[1..][a - 1 := m];
    } else {
      assert out[a := m][1..] == out[1..];
    }
  }

  lemma {:induction false} SumAppend(out: seq<multiset<nat>>, m: multiset<nat>, b: nat)
    ensures Sum(out + [m], b) == Sum(out, b) + m[b]
  {
    if out == [] {
      assert out + [m] == [m] && [m][1..] == [];
    } else {
      SumAppend(out[1..], m, b);
      assert (out + [m])[1..] == out[1..] + [m];
    }
  }

  lemma {:induction false} TotalUpdate(ws: seq<nat>, a: nat, w: nat)
    requires a < |ws|
    ensures Total(ws[a := w]) == Total(ws) - ws[a] + w && Total(ws) >= ws[a]
  {
    if a > 0 {
      TotalUpdate(ws[1..], a - 1, w);
      assert ws[a := w][1..] == ws[1..][a - 1 := w];
    } else {
      assert ws[a := w][1..] == ws[1..];
    }
  }

  lemma {:induction false} PtrsSplit(rs: seq<Ref>, i: nat)
    requires i < |rs|
    ensures Ptrs(rs[i..]) == Token(rs[i]) + Ptrs(rs[i + 1..])
  {
    assert rs[i..][1..] == rs[i + 1..];
  }

  lemma {:induction false} PtrsAppend(rs: seq<Ref>, r: Ref)
    ensures Ptrs(rs + [r]) == Ptrs(rs) + Token(r)
  {
    if rs == [] {
      assert rs + [r] == [r] && [r][1..] == [];
    } else {
      PtrsAppend(rs[1..], r);
      assert (rs + [r])[1..] == rs[1..] + [r];
    }
  }

  lemma {:induction false} PtrsUpdate(rs: seq<Ref>, i: nat, r: Ref)
    requires i < |rs|
    ensures forall b: nat :: Ptrs(rs[i := r])[b] + Token(rs[i])[b] == Ptrs(rs)[b] + Token(r)[b]
    ensures Token(rs[i]) <= Ptrs(rs)
  {
    if i > 0 {
      PtrsUpdate(rs[1..], i - 1, r);
      assert rs[i := r][1..] == rs[1..][i - 1 := r];
    } else {
      assert rs[i := r][1..] == rs[1..];
    }
  }

  lemma OnePtr(r: Ref)
    ensures Ptrs([r]) == Token(r)
  {
    assert [r][1..] == [];
  }

  /** An owned object at rest accounts for exactly its fields. */
  lemma RestingOut(s: State, a: nat)
    requires s.Inv() && a in s.owners && a !in s.busy
    ensures |s.out| == |s.objs| && s.Usable(a) && s.out[a] == Ptrs(Fields(s.objs[a].kind))
  {
  }

  lemma Owned(s: State, r: Ref)
    requires s.Inv() && Token(r) <= s.owners
    ensures r.Ptr? ==> s.Usable(r.a)
  {
    if r.Ptr? { assert r.a in Token(r); }
  }

  // ----- Steps on states -----

  /** Count one more reference to a usable object, held by an outside owner. */
  function Incremented(s: State, a: nat): State
    requires a < |s.objs|
  {
    var o := s.objs[a];
    s.(objs := s.objs[a := o.(rc := if o.rc == REFCOUNTER_MAX then o.rc else o.rc + 1)],
       owners := s.owners + multiset{a})
  }

  lemma IncrementKeeps(s: State, a: nat)
    requires s.Inv() && s.Usable(a)
    ensures Incremented(s, a).Inv()
  {
    var t := Incremented(s, a);
    assert forall b: nat :: t.Usable(b) <==> s.Usable(b);
    forall b: nat ensures t.CountedAt(b) { assert s.CountedAt(b); }
  }

  /** The counter is 16 bits wide: counting adds one in 16 bits, and stops exactly where
      that would wrap to zero. */
  lemma SaturatesAtWrap(s: State, a: nat)
    requires s.Inv() && s.Usable(a)
    ensures
      var sum := (s.objs[a].rc + 1) % 0x1_0000;
      Incremented(s, a).objs[a].rc == if sum == 0 then s.objs[a].rc else sum
  {
    assert s.objs[a].rc <= REFCOUNTER_MAX;
  }

  /** The same for any reference; null and unboxed ones are not counted. */
  function Referenced(s: State, r: Ref): State
    requires r.Ptr? ==> r.a < |s.objs|
  {
    if r.Ptr? then Incremented(s, r.a) else s
  }

  lemma ReferencedOnly(s: State, r: Ref)
    requires r.Ptr? ==> r.a < |s.objs|
    ensures
      var t := Referenced(s, r);
      && t.out == s.out && t.busy == s.busy && t.dying == s.dying && t.owners == s.owners + Token(r)
      && |t.objs| == |s.objs|
      && forall b: nat :: b < |s.objs| ==> t.objs[b].live == s.objs[b].live && t.objs[b].kind == s.objs[b].kind
  {
  }

  /** Give up one of several references to a mortal object. */
  function Decremented(s: State, a: nat): State
    requires a < |s.objs| && s.objs[a].rc > 0
  {
    var o := s.objs[a];
    s.(objs := s.objs[a := o.(rc := o.rc - 1)], owners := s.owners - multiset{a})
  }

  lemma DecrementCounted(s: State, a: nat)
    requires s.Inv() && a in s.owners && s.Mortal(a) && s.objs[a].rc > 1
    ensures Decremented(s, a).Counted()
  {
    var t := Decremented(s, a);
    forall b: nat ensures t.CountedAt(b) { assert s.CountedAt(b); }
  }

  lemma DecrementKeeps(s: State, a: nat)
    requires s.Inv() && a in s.owners && s.Mortal(a) && s.objs[a].rc > 1
    ensures Decremented(s, a).Inv() && Decremented(s, a).Measure() <= s.Measure()
  {
    DecrementCounted(s, a);
    DecrementMeasure(s, a);
    var t := Decremented(s, a);
    assert forall b: nat :: t.Usable(b) <==> s.Usable(b);
    Fewer(s.owners, multiset{a});
    hide State.Counted, State.Measure, Sum, Ptrs;
    assert t.NoDangling();
    assert t.Matches();
  }

  lemma Fewer(o: multiset<nat>, x: multiset<nat>)
    ensures forall b: nat :: b in o - x ==> b in o
  {
  }

  lemma DecrementMeasure(s: State, a: nat)
    requires a < |s.objs| && s.objs[a].rc > 1
    ensures Decremented(s, a).Measure() <= s.Measure()
  {
    var t := Decremented(s, a);
    var w := s.Weights()[a];
    assert t.Weights() == s.Weights()[a := if w == 0 then 0 else w - 1];
    TotalUpdate(s.Weights(), a, if w == 0 then 0 else w - 1);
  }

  /** Give up a reference to an immortal object. */
  lemma DropImmortalKeeps(s: State, a: nat)
    requires s.Inv() && a in s.owners && !s.Mortal(a)
    ensures
      var t := s.(owners := s.owners - multiset{a});
      t.Inv() && OnlyReleased(s, t) && t.Measure() == s.Measure()
  {
    var t := s.(owners := s.owners - multiset{a});
    assert forall b: nat :: t.Usable(b) <==> s.Usable(b);
    forall b: nat ensures t.CountedAt(b) { assert s.CountedAt(b); }
    assert t.Weights() == s.Weights();
  }

  /** Start releasing an object whose last reference goes: its own references pass
      to the releaser. */
  function Released(s: State, a: nat): State
    requires a < |s.objs| && |s.out| == |s.objs|
  {
    s.(out := s.out[a := multiset{}], owners := s.owners - multiset{a} + s.out[a],
       busy := s.busy + {a}, dying := s.dying + {a})
  }

  /** The last reference is the one given up: no field refers to the object. */
  lemma LastReference(s: State, a: nat)
    requires s.Inv() && a in s.owners && s.objs[a].rc == 1
    ensures s.owners[a] == 1 && forall c: nat :: c < |s.out| ==> a !in s.out[c]
  {
    assert s.CountedAt(a);
    forall c: nat | c < |s.out| ensures a !in s.out[c] {
      SumUpdate(s.out, c, multiset{}, a);
    }
  }

  lemma ReleaseCounted(s: State, a: nat)
    requires s.Inv() && a in s.owners && s.objs[a].rc == 1 && a !in s.busy
    ensures Released(s, a).Counted()
  {
    var t := Released(s, a);
    forall b: nat ensures t.CountedAt(b) {
      SumUpdate(s.out, a, multiset{}, b);
      assert s.CountedAt(b);
    }
  }

  lemma ReleaseNoDangling(s: State, a: nat)
    requires s.Inv() && a in s.owners && s.objs[a].rc == 1 && a !in s.busy
    ensures Released(s, a).NoDangling()
  {
    LastReference(s, a);
    hide Sum, State.Counted;
    var t := Released(s, a);
    assert forall b: nat :: t.Usable(b) <==> s.Usable(b) && b != a;
    forall b: nat | b in t.owners ensures t.Usable(b) {
      assert b in s.owners || b in s.out[a];
    }
    forall c: nat, b: nat | c < |t.out| && b in t.out[c] ensures t.Usable(b) {
      assert b in s.out[c];
    }
  }

  lemma ReleaseKeeps(s: State, a: nat)
    requires s.Inv() && a in s.owners && s.objs[a].rc == 1 && a !in s.busy
    ensures Released(s, a).Inv() && Released(s, a).Measure() < s.Measure()
  {
    ReleaseCounted(s, a);
    ReleaseNoDangling(s, a);
    assert s.Usable(a);
    ReleaseMeasure(s, a);
    hide State.Counted, State.NoDangling, State.Measure, Sum, Ptrs;
    assert Released(s, a).Matches();
  }

  lemma ReleaseMeasure(s: State, a: nat)
    requires s.Usable(a) && |s.out| == |s.objs| && s.objs[a].rc == 1
    ensures Released(s, a).Measure() < s.Measure()
  {
    assert Released(s, a).Weights() == s.Weights()[a := 0];
    TotalUpdate(s.Weights(), a, 0);
  }

  /** Finish the release: free the object. */
  function Freed(s: State, a: nat): State
    requires a < |s.objs|
  {
    s.(objs := s.objs[a := s.objs[a].(live := false)], busy := s.busy - {a}, dying := s.dying - {a})
  }

  lemma FreeKeeps(s: State, a: nat)
    requires s.Inv() && a in s.dying
    ensures Freed(s, a).Inv() && Freed(s, a).Measure() == s.Measure()
  {
    var t := Freed(s, a);
    FreeMeasure(s, a);
    FreeCounted(s, a);
    assert forall b: nat :: t.Usable(b) <==> s.Usable(b);
    hide State.Counted, State.Measure, Sum, Ptrs;
    assert t.NoDangling();
    assert t.Matches();
  }

  lemma FreeCounted(s: State, a: nat)
    requires s.Inv() && a in s.dying
    ensures Freed(s, a).Counted()
  {
    var t := Freed(s, a);
    forall b: nat ensures t.CountedAt(b) { assert s.CountedAt(b); }
  }

  lemma FreeMeasure(s: State, a: nat)
    requires a < |s.objs| && a in s.dying
    ensures Freed(s, a).Measure() == s.Measure()
  {
    assert Freed(s, a).Weights() == s.Weights();
  }

  /** Allocate with count one, owned by the caller, taking over the references its
      fields are given. */
  function Allocated(s: State, k: Kind): State {
    s.(objs := s.objs + [Obj(1, true, k)], out := s.out + [Ptrs(Fields(k))],
       owners := s.owners - Ptrs(Fields(k)) + multiset{|s.objs|})
  }

  lemma {:induction false} SumUnknown(out: seq<multiset<nat>>, b: nat)
    requires forall a: nat :: a < |out| ==> b !in out[a]
    ensures Sum(out, b) == 0
  {
    if out != [] { SumUnknown(out[1..], b); }
  }

  lemma AllocateCounted(s: State, k: Kind)
    requires s.Inv() && Ptrs(Fields(k)) <= s.owners
    ensures Allocated(s, k).Counted()
  {
    var t, n := Allocated(s, k), |s.objs|;
    assert !s.Usable(n) && n !in s.owners;
    SumUnknown(s.out, n);
    forall b: nat ensures t.CountedAt(b) {
      assert s.CountedAt(b);
      AllocateCountedAt(s, k, b);
    }
  }

  lemma AllocateCountedAt(s: State, k: Kind, b: nat)
    requires |s.out| == |s.objs| && s.CountedAt(b) && Ptrs(Fields(k)) <= s.owners
    requires |s.objs| !in s.owners && Sum(s.out, |s.objs|) == 0
    ensures Allocated(s, k).CountedAt(b)
  {
    hide Ptrs, Sum;
    SumAppend(s.out, Ptrs(Fields(k)), b);
    MovedCount(s.owners, Ptrs(Fields(k)), |s.objs|, b);
  }

  lemma MovedCount(o: multiset<nat>, x: multiset<nat>, n: nat, b: nat)
    requires x <= o
    ensures (o - x + multiset{n})[b] == o[b] - x[b] + if b == n then 1 else 0
    ensures x[b] <= o[b]
  {
  }

  lemma AllocateKeeps(s: State, k: Kind)
    requires s.Inv() && Ptrs(Fields(k)) <= s.owners
    ensures Allocated(s, k).Inv() && Allocated(s, k).Usable(|s.objs|)
  {
    AllocateCounted(s, k);
    AllocateNoDangling(s, k);
    hide State.Counted, State.NoDangling, Sum, Ptrs;
    var t := Allocated(s, k);
    assert t.Matches();
  }

  lemma AllocateNoDangling(s: State, k: Kind)
    requires s.Inv() && Ptrs(Fields(k)) <= s.owners
    ensures Allocated(s, k).NoDangling()
  {
    hide State.Counted, State.Matches, Sum, Ptrs;
    var t, n := Allocated(s, k), |s.objs|;
    assert forall b: nat :: s.Usable(b) ==> t.Usable(b);
    OnlyMoved(s.owners, Ptrs(Fields(k)), n);
    forall a: nat, b: nat | a < |t.out| && b in t.out[a] ensures t.Usable(b) {
      if a == n { assert b in s.owners; } else { assert b in s.out[a]; }
    }
    forall b: nat | b in t.owners ensures t.Usable(b) {
      if b != n { assert b in s.owners; }
    }
  }

  /** Moving references around makes no new ones. */
  lemma OnlyMoved(o: multiset<nat>, x: multiset<nat>, n: nat)
    ensures forall b: nat :: b in o - x + multiset{n} ==> b in o || b == n
  {
  }

  /** Add a predefined object: immortal from the start, owned by nobody. */
  function Predefined(s: State): State {
    s.(objs := s.objs + [Obj(REFCOUNTER_MAX, true, Leaf)], out := s.out + [multiset{}])
  }

  lemma PredefinedKeeps(s: State)
    requires s.Inv()
    ensures Predefined(s).Inv()
  {
    var t := Predefined(s);
    forall b: nat ensures t.CountedAt(b) {
      assert s.CountedAt(b);
      SumAppend(s.out, multiset{}, b);
    }
    forall b: nat | s.Usable(b) ensures t.Usable(b) { }
    forall a: nat, b: nat | a < |t.out| && b in t.out[a] ensures t.Usable(b) { assert b in s.out[a]; }
  }

  /** Replace an object's fields, moving references between it and the outside. */
  function Refilled(s: State, a: nat, k: Kind): State
    requires a < |s.objs| && |s.out| == |s.objs|
  {
    s.(objs := s.objs[a := s.objs[a].(kind := k)], out := s.out[a := Ptrs(Fields(k))],
       owners := s.owners + s.out[a] - Ptrs(Fields(k)), busy := s.busy - {a})
  }

  lemma RefillKeeps(s: State, a: nat, k: Kind)
    requires s.Inv() && s.Usable(a) && Ptrs(Fields(k)) <= s.owners + s.out[a]
    ensures Refilled(s, a, k).Inv()
  {
    RefillCounted(s, a, k);
    RefillNoDangling(s, a, k);
    hide State.Counted, State.NoDangling, Ptrs, Sum;
    assert Refilled(s, a, k).Matches();
  }

  lemma RefillCounted(s: State, a: nat, k: Kind)
    requires s.Inv() && s.Usable(a) && Ptrs(Fields(k)) <= s.owners + s.out[a]
    ensures Refilled(s, a, k).Counted()
  {
    var t, ps := Refilled(s, a, k), Ptrs(Fields(k));
    forall b: nat ensures t.CountedAt(b) {
      SumUpdate(s.out, a, ps, b);
      Handed(s.owners, s.out[a], ps, b);
      assert s.CountedAt(b);
      hide State.Inv, Ptrs, Sum;
    }
  }

  lemma Handed(o: multiset<nat>, x: multiset<nat>, y: multiset<nat>, b: nat)
    requires y <= o + x
    ensures (o + x - y)[b] == o[b] + x[b] - y[b]
  {
  }

  lemma RefillNoDangling(s: State, a: nat, k: Kind)
    requires s.Inv() && s.Usable(a) && Ptrs(Fields(k)) <= s.owners + s.out[a]
    ensures Refilled(s, a, k).NoDangling()
  {
    hide State.Counted, State.Matches, Sum, Ptrs;
    var t := Refilled(s, a, k);
    assert forall b: nat :: s.Usable(b) ==> t.Usable(b);
    Fewer(s.owners + s.out[a], Ptrs(Fields(k)));
    forall b: nat | b in s.owners + s.out[a] ensures s.Usable(b) { assert b in s.owners || b in s.out[a]; }
    forall c: nat, b: nat | c < |t.out| && b in t.out[c] ensures t.Usable(b) {
      if c == a { assert b in s.owners + s.out[a]; } else { assert b in s.out[c]; }
    }
  }

  /** Take one reference out of an object that is about to overwrite it. */
  function Detached(s: State, a: nat, r: Ref): State
    requires a < |s.out|
  {
    s.(out := s.out[a := s.out[a] - Token(r)], owners := s.owners + Token(r), busy := s.busy + {a})
  }

  lemma DetachKeeps(s: State, a: nat, r: Ref)
    requires s.Inv() && s.Usable(a) && Token(r) <= s.out[a]
    ensures Detached(s, a, r).Inv()
  {
    var t := Detached(s, a, r);
    assert forall b: nat :: t.Usable(b) <==> s.Usable(b);
    forall b: nat | b in t.owners ensures t.Usable(b) {
      assert b in s.owners || b in s.out[a];
    }
    forall c: nat, b: nat | c < |t.out| && b in t.out[c] ensures t.Usable(b) {
      assert b in s.out[c];
    }
    forall b: nat ensures t.CountedAt(b) {
      SumUpdate(s.out, a, s.out[a] - Token(r), b);
      assert s.CountedAt(b);
    }
  }

  // ----- What a release may do -----

  /** From `s` to `t` no object was revived or refilled; immortal and dying objects
      were left alone, and so was what busy objects account for. */
  ghost predicate OnlyReleased(s: State, t: State) {
    && |t.objs| == |s.objs| && |t.out| == |s.out| && t.busy == s.busy && t.dying == s.dying
    && (forall a: nat :: a < |s.objs| ==> Aged(s.objs[a], t.objs[a]))
    && (forall a: nat :: a in s.busy && a < |s.out| ==> t.out[a] == s.out[a])
    && (forall a: nat :: a in s.dying && a < |s.objs| ==> t.objs[a] == s.objs[a])
  }

  predicate Aged(o: Obj, p: Obj) {
    p.kind == o.kind && (p.live ==> o.live) && (o.rc == REFCOUNTER_MAX ==> p == o)
  }

  lemma OnlyReleasedTrans(s: State, t: State, u: State)
    requires OnlyReleased(s, t) && OnlyReleased(t, u)
    ensures OnlyReleased(s, u)
  {
  }

  lemma ReleasedNothing(s: State)
    ensures OnlyReleased(s, s) && s.owners - multiset{} == s.owners
  {
  }

  lemma DecrementOnly(s: State, a: nat)
    requires s.Inv() && a in s.owners && s.Mortal(a) && s.objs[a].rc > 1
    ensures OnlyReleased(s, Decremented(s, a))
  {
  }

  lemma ReleaseOnly(s: State, a: nat, t: State)
    requires s.Inv() && a < |s.objs| && s.Mortal(a) && a !in s.busy && OnlyReleased(Released(s, a), t)
    ensures OnlyReleased(s, Freed(t, a)) && a in t.dying
  {
    var r, u := Released(s, a), Freed(t, a);
    assert a !in s.dying;
    forall c: nat | c < |s.objs| ensures Aged(s.objs[c], u.objs[c]) { assert Aged(r.objs[c], t.objs[c]); }
    forall c: nat | c in s.busy ensures u.out[c] == s.out[c] { assert c in r.busy; }
    forall c: nat | c in s.dying ensures u.objs[c] == s.objs[c] { assert c in r.dying; }
  }

  /** A busy object held by another owner is not the one to be released. */
  lemma NotBusy(s: State, a: nat)
    requires s.Inv() && a in s.owners && s.objs[a].rc == 1
    requires forall c: nat :: c in s.busy && c !in s.dying ==> c in s.owners - multiset{a}
    ensures a !in s.busy && s.out[a] == Ptrs(Fields(s.objs[a].kind))
  {
    LastReference(s, a);
  }

  /** What the invariant says of a heap at rest: an object is live exactly while
      something refers to it, unless it is immortal; and released objects are out of
      reach. */
  lemma LiveIffReferenced(s: State, b: nat)
    requires s.Inv() && s.dying == {} && b < |s.objs| && s.Mortal(b)
    ensures s.objs[b].live <==> s.Refs(b) > 0
  {
    assert s.CountedAt(b);
    if !s.objs[b].live {
      assert !s.Usable(b);
      SumUnknown(s.out, b);
    }
  }

  // ----- The operations of prim.c and runtime.c, as steps -----

  /** Every object but `a` keeps its kind and fields, and none comes back to life. */
  ghost predicate SameShape(objs: seq<Obj>, objs': seq<Obj>, a: nat) {
    |objs| <= |objs'| &&
    forall b: nat :: b < |objs| && b != a ==> objs'[b].kind == objs[b].kind && (objs'[b].live ==> objs[b].live)
  }

  lemma SameShapeTrans(s: State, t: State, u: State, a: nat)
    requires SameShape(s.objs, t.objs, a) && SameShape(t.objs, u.objs, a)
    ensures SameShape(s.objs, u.objs, a)
  {
  }

  lemma WriteReady(s: State, a: nat, v: Ref)
    requires s.Inv() && a in s.owners && a !in s.busy && s.objs[a].kind.IORef? && (v.Ptr? ==> s.Usable(v.a))
    ensures
      var t := Referenced(s, v);
      && t.Usable(a) && t.busy == s.busy && t.dying == s.dying && |t.out| == |t.objs| == |s.objs|
      && t.owners == s.owners + Token(v) && t.out[a] == Token(s.objs[a].kind.v)
      && SameShape(s.objs, t.objs, a)
  {
    OnePtr(s.objs[a].kind.v);
    RestingOut(s, a);
  }

  lemma WriteCell(s: State, t: State, a: nat, v: Ref, was: Ref)
    requires t.Usable(a) && a !in t.busy && |t.out| == |t.objs|
    requires t.owners == s.owners + Token(v) && t.out[a] == Token(was) && SameShape(s.objs, t.objs, a)
    ensures
      var u := Refilled(t, a, IORef(v));
      && Ptrs(Fields(IORef(v))) <= t.owners + t.out[a]
      && u.owners == s.owners + Token(was) && u.busy == t.busy && u.dying == t.dying
      && |u.objs| == |t.objs| && u.objs[a].kind == IORef(v) && SameShape(s.objs, u.objs, a)
  {
    OnePtr(v);
    Exchange(s.owners, Token(v), Token(was));
    assert t.busy - {a} == t.busy;
  }

  lemma Exchange(o: multiset<nat>, x: multiset<nat>, y: multiset<nat>)
    ensures o + x + y - x == o + y && x <= o + x + y
  {
  }

  /** After the release that ends an update, the object the caller owns still has
      the fields it was given. */
  lemma AfterRelease(s: State, a: nat, t: State, u: State)
    requires u.Inv() && OnlyReleased(t, u) && a in u.owners && SameShape(s.objs, t.objs, a)
    ensures u.Usable(a) && a < |t.objs| && u.objs[a].kind == t.objs[a].kind && SameShape(s.objs, u.objs, a)
  {
    assert Aged(t.objs[a], u.objs[a]);
  }

  // Overwriting an array slot releases the old element before the slot changes.

  lemma SetReady(s: State, a: nat, i: nat)
    requires s.Inv() && a in s.owners && a !in s.busy && s.objs[a].kind.Array? && i < |s.objs[a].kind.elems|
    ensures
      var was := s.objs[a].kind.elems[i];
      && s.Usable(a) && |s.out| == |s.objs| && s.out[a] == Ptrs(s.objs[a].kind.elems)
      && Detached(s, a, was).Inv() && Token(was) <= Detached(s, a, was).owners
      && Detached(s, a, was).owners - Token(was) == s.owners && Detached(s, a, was).busy == s.busy + {a}
  {
    var was := s.objs[a].kind.elems[i];
    RestingOut(s, a);
    PtrsUpdate(s.objs[a].kind.elems, i, Null);
    DetachKeeps(s, a, was);
    assert s.owners + Token(was) - Token(was) == s.owners;
  }

  /** The state in which the slot is about to be filled. */
  lemma SlotReleased(s: State, t: State, a: nat, was: Ref)
    requires |s.out| == |s.objs| && s.Usable(a) && s.busy == {} && t.Inv() && a in t.owners
    requires OnlyReleased(Detached(s, a, was), t)
    ensures t.Usable(a) && |t.objs| == |s.objs| == |t.out| && t.out[a] == s.out[a] - Token(was)
    ensures t.busy == {a} && SameShape(s.objs, t.objs, a)
  {
    var d := Detached(s, a, was);
    assert a in d.busy;
    forall b: nat | b < |s.objs| ensures Aged(s.objs[b], t.objs[b]) { assert Aged(d.objs[b], t.objs[b]); }
  }

  lemma SetSlot(s: State, a: nat, elems: seq<Ref>, i: nat, v: Ref)
    requires s.Usable(a) && |s.out| == |s.objs| && s.busy == {a} && i < |elems| && (v.Ptr? ==> s.Usable(v.a))
    requires s.out[a] == Ptrs(elems) - Token(elems[i])
    ensures
      var k := Array(elems[i := v]);
      var t := Referenced(s, v);
      && t.Usable(a) && |t.out| == |t.objs| && Ptrs(Fields(k)) <= t.owners + t.out[a]
      && PutDone(s, Refilled(t, a, k), a, k)
  {
    SlotPaid(s.owners, elems, i, v);
    ReferencedOnly(s, v);
    hide Ptrs, Token, Referenced;
    var k, t := Array(elems[i := v]), Referenced(s, v);
    assert t.owners + t.out[a] - Ptrs(Fields(k)) == s.owners;
    PutBy(s, t, a, k);
  }

  lemma PutBy(s: State, t: State, a: nat, k: Kind)
    requires |t.out| == |t.objs| == |s.objs| && a < |s.objs| && t.busy == {a} && t.objs[a].live
    requires SameShape(s.objs, t.objs, a) && t.owners + t.out[a] - Ptrs(Fields(k)) == s.owners
    ensures PutDone(s, Refilled(t, a, k), a, k)
  {
    assert {a} - {a} == {};
  }

  lemma SlotPaid(o: multiset<nat>, elems: seq<Ref>, i: nat, v: Ref)
    requires i < |elems|
    ensures Ptrs(elems[i := v]) <= o + Token(v) + (Ptrs(elems) - Token(elems[i]))
    ensures o + Token(v) + (Ptrs(elems) - Token(elems[i])) - Ptrs(elems[i := v]) == o
  {
    hide Ptrs, Token;
    PtrsUpdate(elems, i, v);
    Replaced(o, Ptrs(elems), Ptrs(elems[i := v]), Token(elems[i]), Token(v));
  }

  lemma Replaced(o: multiset<nat>, p: multiset<nat>, p': multiset<nat>, x: multiset<nat>, y: multiset<nat>)
    requires x <= p && forall b: nat :: p'[b] + x[b] == p[b] + y[b]
    ensures p' <= o + y + (p - x) && o + y + (p - x) - p' == o
  {
    forall b: nat ensures (o + y + (p - x))[b] == o[b] + p'[b] { assert p'[b] + x[b] == p[b] + y[b]; }
  }

  ghost predicate PutDone(s: State, t: State, a: nat, k: Kind) {
    && t.owners == s.owners && t.busy == {} && |t.objs| == |s.objs| && a < |t.objs|
    && t.objs[a].live && t.objs[a].kind == k && SameShape(s.objs, t.objs, a)
  }

  // Filling an empty slot of a new object with one more reference.

  /** Only the kind of `a` and some counters differ. */
  ghost predicate Filled(s: State, t: State, a: nat) {
    && |t.objs| == |s.objs| && t.owners == s.owners && t.busy == s.busy && t.dying == s.dying
    && forall b: nat :: b < |s.objs| ==> t.objs[b].live == s.objs[b].live && (b != a ==> t.objs[b].kind == s.objs[b].kind)
  }

  lemma FilledTrans(s: State, t: State, u: State, a: nat)
    requires Filled(s, t, a) && Filled(t, u, a)
    ensures Filled(s, u, a)
  {
  }

  lemma SlotReady(s: State, a: nat, k: Kind, i: nat, v: Ref)
    requires s.Inv() && s.Usable(a) && a !in s.busy && (v.Ptr? ==> s.Usable(v.a))
    requires i < |Fields(s.objs[a].kind)| && Fields(s.objs[a].kind)[i] == Null
    requires Fields(k) == Fields(s.objs[a].kind)[i := v]
    ensures
      var t := Referenced(s, v);
      && t.Usable(a) && |t.out| == |t.objs| && |s.out| == |s.objs| && a < |s.objs| && (v.Ptr? ==> v.a < |s.objs|)
      && Ptrs(Fields(k)) == s.out[a] + Token(v)
  {
    assert s.out[a] == Ptrs(Fields(s.objs[a].kind)) && |s.out| == |s.objs|;
    hide State.Inv;
    SlotGains(Fields(s.objs[a].kind), i, v);
    ReferencedOnly(s, v);
  }

  lemma SlotGains(rs: seq<Ref>, i: nat, v: Ref)
    requires i < |rs| && rs[i] == Null
    ensures Ptrs(rs[i := v]) == Ptrs(rs) + Token(v)
  {
    PtrsUpdate(rs, i, v);
    hide Ptrs;
    assert forall b: nat :: Token(rs[i])[b] == 0;
  }

  lemma SlotFilled(s: State, a: nat, k: Kind, v: Ref)
    requires |s.out| == |s.objs| && a < |s.objs| && a !in s.busy && (v.Ptr? ==> v.a < |s.objs|)
    requires Ptrs(Fields(k)) == s.out[a] + Token(v)
    ensures
      var t := Referenced(s, v);
      t.owners == s.owners + Token(v) && Ptrs(Fields(k)) <= t.owners + t.out[a] && Filled(s, Refilled(t, a, k), a)
  {
    hide Ptrs, Fields;
    Paid(s.owners, Token(v), s.out[a]);
    assert Referenced(s, v).owners == s.owners + Token(v);
    assert s.busy - {a} == s.busy;
  }

  lemma Paid(o: multiset<nat>, x: multiset<nat>, y: multiset<nat>)
    ensures o + x + y - (y + x) == o && y + x <= o + x + y
  {
  }

  /** A new object with empty slots. */
  function Nulls(n: nat): seq<Ref> { seq(n, _ => Null) }

  lemma {:induction false} NoPtrs(rs: seq<Ref>)
    requires forall i: nat :: i < |rs| ==> rs[i] == Null
    ensures Ptrs(rs) == multiset{}
  {
    if rs != [] { NoPtrs(rs[1..]); }
  }

  lemma AllocatedOnly(s: State, k: Kind)
    requires s.Inv() && forall i: nat :: i < |Fields(k)| ==> Fields(k)[i] == Null
    ensures
      var a := |s.objs|;
      var t := Allocated(s, k);
      && Ptrs(Fields(k)) <= s.owners && t.Inv() && t.Usable(a) && a !in t.busy && |t.objs| == a + 1
      && t.objs[a] == Obj(1, true, k) && t.owners == s.owners + multiset{a}
      && t.busy == s.busy && t.dying == s.dying && (forall b: nat :: s.Usable(b) ==> t.Usable(b) && b != a)
      && forall b: nat :: b < |s.objs| ==> t.objs[b] == s.objs[b]
  {
    NoPtrs(Fields(k));
    AllocateKeeps(s, k);
    assert s.owners - multiset{} == s.owners;
  }

  /** A new array of which the first `i` slots have been filled. */
  function Filling(n: nat, i: nat, v: Ref): seq<Ref> { seq(n, j => if j < i then v else Null) }

  lemma Emptied(n: nat, v: Ref)
    ensures Filling(n, 0, v) == Nulls(n) && Filling(n, n, v) == seq(n, _ => v)
  {
  }

  lemma FillingNext(n: nat, i: nat, v: Ref)
    requires i < n
    ensures |Filling(n, i, v)| == n && Filling(n, i, v)[i] == Null && Filling(n, i, v)[i := v] == Filling(n, i + 1, v)
    ensures forall rs: seq<Ref> :: Fields(Array(rs)) == rs
  {
  }

  lemma FilledSelf(s: State, a: nat)
    ensures Filled(s, s, a)
  {
  }

  lemma FilledUsable(s: State, t: State, a: nat, v: Ref)
    requires Filled(s, t, a) && s.Usable(a) && a !in s.busy && (v.Ptr? ==> s.Usable(v.a))
    ensures t.Usable(a) && a !in t.busy && (v.Ptr? ==> t.Usable(v.a)) && |t.objs| == |s.objs| && t.objs[a].live
  {
  }

  /** A reference to something else leaves the counter of `a`. */
  lemma SlotCounter(s: State, a: nat, v: Ref)
    requires a < |s.objs| && (v.Ptr? ==> v.a < |s.objs| && v.a != a)
    ensures Referenced(s, v).objs[a].rc == s.objs[a].rc
  {
  }

  lemma FilledShape(s: State, t: State, u: State, a: nat)
    requires Filled(t, u, a) && |s.objs| <= |t.objs|
    requires forall b: nat :: b < |s.objs| ==> t.objs[b] == s.objs[b]
    ensures SameShape(s.objs, u.objs, a) && u.owners == t.owners && u.busy == t.busy && u.dying == t.dying
  {
  }

  // Extending a closure.

  /** Move a reference the caller owns into an empty slot. */
  lemma TakeSlot(s: State, a: nat, k: Kind, i: nat, v: Ref)
    requires s.Inv() && s.Usable(a) && a !in s.busy && Token(v) <= s.owners
    requires i < |Fields(s.objs[a].kind)| && Fields(s.objs[a].kind)[i] == Null
    requires Fields(k) == Fields(s.objs[a].kind)[i := v]
    ensures |s.out| == |s.objs| && Ptrs(Fields(k)) <= s.owners + s.out[a]
    ensures Refilled(s, a, k).owners == s.owners - Token(v) && Refilled(s, a, k).busy == s.busy
  {
    assert s.out[a] == Ptrs(Fields(s.objs[a].kind));
    hide State.Inv;
    SlotTaken(s.owners, Fields(s.objs[a].kind), i, v);
    assert s.busy - {a} == s.busy;
  }

  lemma SlotTaken(o: multiset<nat>, rs: seq<Ref>, i: nat, v: Ref)
    requires i < |rs| && rs[i] == Null && Token(v) <= o
    ensures Ptrs(rs[i := v]) <= o + Ptrs(rs) && o + Ptrs(rs) - Ptrs(rs[i := v]) == o - Token(v)
  {
    PtrsUpdate(rs, i, v);
  }

  /** The arguments of a closure whose only reference is consumed pass to the new
      closure `n` without touching their counters. */
  lemma MoveReady(s: State, c: nat, n: nat, k: Kind)
    requires s.Inv() && s.busy == {} && c in s.owners && s.objs[c].rc == 1
    requires s.Usable(n) && n != c && (forall i: nat :: i < |Fields(s.objs[n].kind)| ==> Fields(s.objs[n].kind)[i] == Null)
    requires Ptrs(Fields(k)) == Ptrs(Fields(s.objs[c].kind))
    ensures |s.out| == |s.objs| && c < |s.objs|
    ensures
      var t := Released(s, c);
      && t.Inv() && t.Usable(n) && |t.out| == |t.objs| && Ptrs(Fields(k)) <= t.owners + t.out[n]
      && Refilled(t, n, k).owners == s.owners - multiset{c}
      && Refilled(t, n, k).busy == {c} && Refilled(t, n, k).dying == s.dying + {c}
      && Refilled(t, n, k).objs == s.objs[n := s.objs[n].(kind := k)]
  {
    ReleaseKeeps(s, c);
    MoveOut(s, c, n);
    hide Ptrs, State.Inv, State.Measure;
    MoveBy(s, c, n, k);
  }

  lemma MoveOut(s: State, c: nat, n: nat)
    requires s.Inv() && s.busy == {} && c in s.owners && s.Usable(n)
    requires forall i: nat :: i < |Fields(s.objs[n].kind)| ==> Fields(s.objs[n].kind)[i] == Null
    ensures |s.out| == |s.objs| && s.Usable(c)
    ensures s.out[c] == Ptrs(Fields(s.objs[c].kind)) && s.out[n] == multiset{}
  {
    NoPtrs(Fields(s.objs[n].kind));
  }

  lemma MoveBy(s: State, c: nat, n: nat, k: Kind)
    requires |s.out| == |s.objs| && s.Usable(c) && s.Usable(n) && n != c && s.busy == {}
    requires s.out[c] == Ptrs(Fields(k)) && s.out[n] == multiset{}
    ensures
      var t := Released(s, c);
      && t.Usable(n) && |t.out| == |t.objs| && Ptrs(Fields(k)) <= t.owners + t.out[n]
      && Refilled(t, n, k).owners == s.owners - multiset{c}
      && Refilled(t, n, k).busy == {c} && Refilled(t, n, k).dying == s.dying + {c}
      && Refilled(t, n, k).objs == s.objs[n := s.objs[n].(kind := k)]
  {
    hide Ptrs;
    ArgsMoved(s.owners, c, s.out[c]);
    assert {c} - {n} == {c} && {} + {c} == {c};
  }

  lemma ArgsMoved(o: multiset<nat>, c: nat, args: multiset<nat>)
    ensures args <= o - multiset{c} + args + multiset{}
    ensures o - multiset{c} + args + multiset{} - args == o - multiset{c}
  {
  }

  /** The argument slots of the new closure after copying `i` of the old ones. */
  function Copying(args: seq<Ref>, i: nat): seq<Ref>
    requires i <= |args|
  {
    seq(|args| + 1, j requires 0 <= j <= |args| => if j < i then args[j] else Null)
  }

  lemma CopyingEnds(args: seq<Ref>)
    ensures Copying(args, 0) == Nulls(|args| + 1) && Copying(args, |args|) == args + [Null]
  {
  }

  lemma CopyingNext(args: seq<Ref>, i: nat)
    requires i < |args|
    ensures |Copying(args, i)| == |args| + 1 && Copying(args, i)[i] == Null
    ensures Copying(args, i)[i := args[i]] == Copying(args, i + 1)
    ensures Ptrs(args[..i + 1]) == Ptrs(args[..i]) + Token(args[i])
  {
    assert args[..i + 1] == args[..i] + [args[i]];
    PtrsAppend(args[..i], args[i]);
  }

  lemma {:induction false} PtrsPrefix(args: seq<Ref>, i: nat, c: nat)
    requires i <= |args|
    ensures Ptrs(args[..i])[c] <= Ptrs(args)[c]
    decreases |args| - i
  {
    if i < |args| {
      PtrsPrefix(args, i + 1, c);
      CopyingNext(args, i);
    } else {
      assert args[..i] == args;
    }
  }

  /** Counting one more reference below the limit. */
  lemma BumpedCounter(s: State, c: nat, v: Ref)
    requires c < |s.objs| && (v.Ptr? ==> v.a < |s.objs|) && s.objs[c].rc < REFCOUNTER_MAX
    ensures Referenced(s, v).objs[c].rc == s.objs[c].rc + Token(v)[c]
  {
  }

  lemma {:induction false} ArgsUsable(s: State, args: seq<Ref>)
    requires s.Inv() && forall b: nat :: b in Ptrs(args) ==> s.Usable(b)
    ensures forall j: nat :: j < |args| && args[j].Ptr? ==> s.Usable(args[j].a)
  {
    hide State.Inv;
    forall j: nat | j < |args| && args[j].Ptr? ensures s.Usable(args[j].a) {
      PtrsUpdate(args, j, Null);
      assert args[j].a in Token(args[j]);
    }
  }

  /** What is known of a closure about to be extended. */
  lemma ExtendReady(s: State, c: nat, arg: Ref)
    requires s.Inv() && s.busy == {} && multiset{c} + Token(arg) <= s.owners && s.objs[c].kind.Closure?
    ensures
      var args := s.objs[c].kind.args;
      && c in s.owners && Token(arg) <= s.owners && c < |s.objs| && s.objs[c].live && s.objs[c].rc >= 1
      && (forall j: nat :: j < |args| && args[j].Ptr? ==> s.Usable(args[j].a))
      && Ptrs(args + [Null]) == Ptrs(args)
  {
    var args := s.objs[c].kind.args;
    assert c in multiset{c} + Token(arg);
    RestingOut(s, c);
    assert s.CountedAt(c);
    assert forall b: nat :: b in s.out[c] ==> s.Usable(b);
    ArgsUsable(s, args);
    PtrsAppend(args, Null);
  }

  /** Who owns what when a closure has been extended. */
  lemma ExtendOwners(o: multiset<nat>, c: nat, n: nat, arg: Ref)
    requires multiset{c} + Token(arg) <= o
    ensures Token(arg) <= o + multiset{n} - multiset{c} && Token(arg) <= o + multiset{n}
    ensures c in o + multiset{n} - Token(arg) && c in o + multiset{n}
    ensures o + multiset{n} - multiset{c} - Token(arg) == o - multiset{c} - Token(arg) + multiset{n}
    ensures o + multiset{n} - Token(arg) - multiset{c} == o - multiset{c} - Token(arg) + multiset{n}
  {
  }

  /** Objects but `c` and `n` keep their kind and stay as live as they were. */
  ghost predicate Kept(objs: seq<Obj>, objs': seq<Obj>, c: nat, n: nat) {
    |objs| <= |objs'| &&
    forall b: nat :: b < |objs| && b != c && b != n ==> objs'[b].kind == objs[b].kind && objs'[b].live == objs[b].live
  }

  lemma KeptTrans(o: seq<Obj>, p: seq<Obj>, q: seq<Obj>, c: nat, n: nat)
    requires Kept(o, p, c, n) && Kept(p, q, c, n)
    ensures Kept(o, q, c, n)
  {
  }

  lemma KeptUpdate(objs: seq<Obj>, c: nat, n: nat, o: Obj)
    requires n < |objs|
    ensures Kept(objs, objs[n := o], c, n)
  {
  }

  lemma KeptPrefix(o: seq<Obj>, p: seq<Obj>, c: nat, n: nat)
    requires |o| <= |p| && forall b: nat :: b < |o| ==> p[b] == o[b]
    ensures Kept(o, p, c, n)
  {
  }

  lemma LastSlot(args: seq<Ref>, arg: Ref)
    ensures (args + [Null])[|args|] == Null && (args + [Null])[|args| := arg] == args + [arg]
  {
  }

  /** From `t`, the new closure `n` has got the first `i` arguments of `c`. */
  ghost predicate Copied(t: State, s: State, c: nat, n: nat, fn: int, arity: nat, args: seq<Ref>, i: nat) {
    && i <= |args| && s.Inv() && Filled(t, s, n) && n < |s.objs| && c < |s.objs| && |t.objs| == |s.objs|
    && s.objs[n] == Obj(1, true, Closure(fn, arity, Copying(args, i)))
    && s.objs[c].rc == t.objs[c].rc + Ptrs(args[..i])[c]
  }

  lemma CopyingStarts(t: State, c: nat, n: nat, fn: int, arity: nat, args: seq<Ref>)
    requires t.Inv() && n < |t.objs| && c < |t.objs|
    requires t.objs[n] == Obj(1, true, Closure(fn, arity, Nulls(|args| + 1)))
    ensures Copied(t, t, c, n, fn, arity, args, 0)
  {
    hide State.Inv;
    CopyingEnds(args);
    FilledSelf(t, n);
    assert args[..0] == [];
  }

  lemma CopiedAll(t: State, s: State, c: nat, n: nat, fn: int, arity: nat, args: seq<Ref>)
    requires Copied(t, s, c, n, fn, arity, args, |args|)
    ensures s.Inv() && Filled(t, s, n) && c < |s.objs| && n < |s.objs| && |t.objs| == |s.objs|
    ensures s.objs[n] == Obj(1, true, Closure(fn, arity, args + [Null]))
    ensures s.objs[c].rc == t.objs[c].rc + Ptrs(args)[c]
  {
    hide State.Inv;
    CopyingEnds(args);
    assert args[..|args|] == args;
  }
}

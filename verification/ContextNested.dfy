/** Nested branches of the context (Core/Context.idr) are transactions: whatever the
    nesting, committed and taken back branches have the effect they would have on a
    plain map that is copied and put back. */
module ContextTransactions {
  import opened Base
  import opened ContextSpec

  /** What is done between branching and the matching commit or restore. */
  datatype Prog<E> = DoAdd(n: Name, e: E) | DoName(n: Name) | Block(body: seq<Prog<E>>, kept: bool)

  /** The operations of well-nested branches, started in `x`. A block that is not kept
      goes back to the record its own branch saved. */
  function Ops<E>(p: Prog<E>, x: Session<E>): seq<Op<E>>
    decreases p, 0
  {
    match p
    case DoAdd(n, e) => [Add(n, e)]
    case DoName(n) => [NewName(n)]
    case Block(body, kept) =>
      [Branch] + OpsAll(body, Step(Branch, x)) + [if kept then Commit else Restore(|x.saved|)]
  }

  function OpsAll<E>(ps: seq<Prog<E>>, x: Session<E>): seq<Op<E>>
    decreases ps, 0
  {
    if ps == [] then [] else Ops(ps[0], x) + OpsAll(ps[1..], Run(Ops(ps[0], x), x))
  }

  lemma {:induction false} RunAppend<E>(a: seq<Op<E>>, b: seq<Op<E>>, x: Session<E>)
    ensures Run(a + b, x) == Run(b, Run(a, x))
    decreases a
  {
    if a == [] {
      assert a + b == b;
    } else {
      RunAppend(a[1..], b, Step(a[0], x));
      assert (a + b)[1..] == a[1..] + b;
    }
  }

  lemma RunOne<E>(op: Op<E>, x: Session<E>)
    ensures Run([op], x) == Step(op, x)
  {
    assert [op][1..] == [];
  }

  lemma RunBlock<E>(body: seq<Prog<E>>, kept: bool, x: Session<E>)
    ensures
      var last: Op<E> := if kept then Commit else Restore(|x.saved|);
      Run(Ops(Block(body, kept), x), x) == Step(last, Run(OpsAll(body, Step(Branch, x)), Step(Branch, x)))
  {
    var b := Step(Branch, x);
    var inner := OpsAll(body, b);
    var last: Op<E> := if kept then Commit else Restore(|x.saved|);
    RunOne(last, Run(inner, b));
    RunOne(Branch, x);
    RunAppend([Branch], inner, x);
    RunAppend([Branch] + inner, [last], x);
  }

  // ----- A plain store -----

  /** A context without array, staging area or depth. */
  datatype Plain<E> = Plain(next: int, resolved: map<Name, int>, entries: map<int, E>)

  function Named<E>(n: Name, a: Plain<E>): Plain<E> {
    if n.Resolved? then a else a.(next := a.next + 1, resolved := a.resolved[n := a.next])
  }

  function Entered<E>(n: Name, e: E, a: Plain<E>): Plain<E> {
    if n.Resolved? then a.(entries := a.entries[n.id := e])
    else if n in a.resolved then a.(entries := a.entries[a.resolved[n] := e])
    else Named(n, a).(entries := a.entries[a.next := e])
  }

  /** A block that is taken back has no effect; one that is kept has the effect of what
      is in it. */
  function Meaning<E>(p: Prog<E>, a: Plain<E>): Plain<E>
    decreases p, 0
  {
    match p
    case DoAdd(n, e) => Entered(n, e, a)
    case DoName(n) => Named(n, a)
    case Block(body, kept) => if kept then MeaningAll(body, a) else a
  }

  function MeaningAll<E>(ps: seq<Prog<E>>, a: Plain<E>): Plain<E>
    decreases ps, 0
  {
    if ps == [] then a else MeaningAll(ps[1..], Meaning(ps[0], a))
  }

  /** Resolved names that are added refer to allocated indices, also in blocks that are
      taken back. */
  predicate Careful<E>(p: Prog<E>, a: Plain<E>)
    decreases p, 0
  {
    match p
    case DoAdd(n, _) => n.Resolved? ==> 0 <= n.id < a.next
    case DoName(_) => true
    case Block(body, _) => CarefulAll(body, a)
  }

  predicate CarefulAll<E>(ps: seq<Prog<E>>, a: Plain<E>)
    decreases ps, 0
  {
    ps != [] ==> Careful(ps[0], a) && CarefulAll(ps[1..], Meaning(ps[0], a))
  }

  /** What a state holds, wherever it holds it. */
  function Holds<E>(s: State<E>): Plain<E> {
    Plain(s.ctx.next, s.ctx.resolved, map i | 0 <= i < s.ctx.next && View(s, i).Some? :: View(s, i).value)
  }

  lemma SameHolds<E>(s: State<E>, t: State<E>)
    requires s.ctx.next == t.ctx.next && s.ctx.resolved == t.ctx.resolved
    requires forall i: int :: View(t, i) == View(s, i)
    ensures Holds(t) == Holds(s)
  {
  }

  lemma AddHolds<E>(n: Name, e: E, s: State<E>)
    requires Valid(s) && Allocated(n, s)
    ensures Holds(AddCtxt(n, e, s).1) == Entered(n, e, Holds(s))
  {
    hide Valid;
    var (idx, t) := AddCtxt(n, e, s);
    AddSets(n, e, s);
    PositionKeeps(n, s);
    assert 0 <= idx < t.ctx.next && s.ctx.next <= t.ctx.next;
    forall i | s.ctx.next <= i ensures View(s, i) == None { BeyondNone(s, i); }
    assert Holds(t).entries == Holds(s).entries[idx := e];
  }

  lemma BeyondNone<E>(s: State<E>, i: int)
    requires Valid(s) && s.ctx.next <= i
    ensures View(s, i) == None
  {
  }

  lemma NameHolds<E>(n: Name, s: State<E>)
    requires Valid(s)
    ensures Holds(AddName(n, s).1) == Named(n, Holds(s))
  {
    var t := AddName(n, s).1;
    forall i: int ensures View(t, i) == View(s, i) {}
    BeyondNone(s, s.ctx.next);
  }

  // ----- Nested branches refine the plain store -----

  /** What a run of well-nested branches does from `x` to `y`. */
  ghost predicate Transacts<E>(x: Session<E>, y: Session<E>, a: Plain<E>) {
    && Ok(y) && y.st.ctx.depth == x.st.ctx.depth && Holds(y.st) == a
    && (x.st.ctx.depth > 0 ==> Extends(x.st.cells, y.st.cells) && x.saved <= y.saved)
    && (x.st.ctx.depth == 0 ==> y.saved == [])
  }

  lemma TransactsTrans<E>(x: Session<E>, y: Session<E>, z: Session<E>, a: Plain<E>, b: Plain<E>)
    requires Transacts(x, y, a) && Transacts(y, z, b)
    ensures Transacts(x, z, b)
  {
    hide Ok, Holds;
    if x.st.ctx.depth > 0 { ExtendsTrans(x.st.cells, y.st.cells, z.st.cells); }
  }

  lemma BranchTransacts<E>(x: Session<E>)
    requires Ok(x)
    ensures var b := Step(Branch, x); Ok(b) && b.st.ctx.depth == x.st.ctx.depth + 1 && Holds(b.st) == Holds(x.st) && b.st.cells == x.st.cells
  {
    StepKeeps(Branch, x);
    SameHolds(x.st, Step(Branch, x).st);
  }

  lemma CommitTransacts<E>(x: Session<E>, y: Session<E>, a: Plain<E>)
    requires Ok(x) && Transacts(Step(Branch, x), y, a)
    ensures Transacts(x, Step(Commit, y), a)
  {
    StepKeeps(Commit, y);
    CommitKeeps(y.st);
    SameHolds(y.st, Step(Commit, y).st);
    hide Valid;
  }

  lemma RestoreTransacts<E>(x: Session<E>, y: Session<E>, a: Plain<E>)
    requires Ok(x) && Transacts(Step(Branch, x), y, a)
    ensures Transacts(x, Step(Restore(|x.saved|), y), Holds(x.st))
  {
    var k := |x.saved|;
    StepKeeps(Restore(k), y);
    var z := Step(Restore(k), y);
    assert y.saved[k] == x.st.ctx;
    assert y.saved[..k] == x.saved;
    ExtendsValid(x.st.cells, y.st.cells, x.st.ctx);
    assert x.st == State(x.st.cells, x.st.ctx) && z.st == State(y.st.cells, x.st.ctx);
    SameHolds(x.st, z.st);
  }

  lemma {:induction false} ProgTransacts<E>(p: Prog<E>, x: Session<E>)
    requires Ok(x) && Careful(p, Holds(x.st))
    ensures Transacts(x, Run(Ops(p, x), x), Meaning(p, Holds(x.st)))
    decreases p, 0
  {
    match p
    case DoAdd(n, e) =>
      RunOne(Add(n, e), x);
      StepKeeps(Add(n, e), x);
      AddHolds(n, e, x.st);
      if x.st.ctx.depth > 0 { AddExtends(n, e, x.st); }
    case DoName(n) =>
      RunOne(NewName(n), x);
      StepKeeps(NewName(n), x);
      NameHolds(n, x.st);
    case Block(body, kept) =>
      hide Ok, Holds, Valid, Transacts, Step;
      RunBlock(body, kept, x);
      BranchTransacts(x);
      var b := Step(Branch, x);
      AllTransact(body, b);
      var y := Run(OpsAll(body, b), b);
      if kept { CommitTransacts(x, y, MeaningAll(body, Holds(b.st))); }
      else { RestoreTransacts(x, y, MeaningAll(body, Holds(b.st))); }
  }

  lemma AddExtends<E>(n: Name, e: E, s: State<E>)
    requires Valid(s) && Allocated(n, s) && s.ctx.depth > 0
    ensures Extends(s.cells, AddCtxt(n, e, s).1.cells)
  {
    PositionKeeps(n, s);
  }

  /** Branches nested in any way, committed or taken back in turn, end at the depth they
      began with and do what the same program does on a plain store. */
  lemma {:induction false} AllTransact<E>(ps: seq<Prog<E>>, x: Session<E>)
    requires Ok(x) && CarefulAll(ps, Holds(x.st))
    ensures Transacts(x, Run(OpsAll(ps, x), x), MeaningAll(ps, Holds(x.st)))
    decreases ps, 0
  {
    if ps != [] {
      var y := Run(Ops(ps[0], x), x);
      var m := Meaning(ps[0], Holds(x.st));
      ProgTransacts(ps[0], x);
      AllTransact(ps[1..], y);
      RunAppend(Ops(ps[0], x), OpsAll(ps[1..], y), x);
      TransactsTrans(x, y, Run(OpsAll(ps[1..], y), y), m, MeaningAll(ps[1..], m));
    }
  }

  /** A branch, well-nested work inside and a commit end where they began: at the same
      depth, with the work done. */
  lemma BalancedCommit<E>(ps: seq<Prog<E>>, x: Session<E>)
    requires Ok(x) && CarefulAll(ps, Holds(x.st))
    ensures
      var b := Step(Branch, x);
      var t := Step(Commit, Run(OpsAll(ps, b), b));
      t.st.ctx.depth == x.st.ctx.depth && Holds(t.st) == MeaningAll(ps, Holds(x.st))
  {
    ProgTransacts(Block(ps, true), x);
    RunBlock(ps, true, x);
  }

  /** Well-nested work at the top level leaves nothing staged: every entry made, and not
      taken back, is in the array itself. */
  lemma TopLevelStored<E>(ps: seq<Prog<E>>, x: Session<E>)
    requires Ok(x) && x.st.ctx.depth == 0 && CarefulAll(ps, Holds(x.st))
    ensures
      var y := Run(OpsAll(ps, x), x).st;
      var m := MeaningAll(ps, Holds(x.st));
      && y.ctx == Context(m.next, m.resolved, map[], 0)
      && forall i: int :: Read(y.cells, i) == if i in m.entries then Some(m.entries[i]) else None
  {
    AllTransact(ps, x);
    var y := Run(OpsAll(ps, x), x).st;
    forall i: int ensures Read(y.cells, i) == if i in Holds(y).entries then Some(Holds(y).entries[i]) else None {
      assert View(y, i) == Read(y.cells, i);
      if i >= y.ctx.next { BeyondNone(y, i); }
    }
  }

  // ----- Growth -----

  /** Only allocations of new names. */
  predicate Allocations<E>(ops: seq<Op<E>>) { forall i :: 0 <= i < |ops| ==> ops[i].NewName? && !ops[i].n.Resolved? }

  /** The array is replaced when it is full and then lasts for ten thousand more
      allocations, at any depth. */
  lemma {:induction false} GrowsRarely<E>(ops: seq<Op<E>>, x: Session<E>)
    requires Ok(x) && Allocations(ops) && |ops| <= |x.st.cells| - x.st.ctx.next + 10000
    ensures
      var y := Run(ops, x);
      && y.st.ctx.next == x.st.ctx.next + |ops|
      && |y.st.cells| == |x.st.cells| + if |ops| <= |x.st.cells| - x.st.ctx.next then 0 else 10000
    decreases ops
  {
    if ops != [] {
      StepKeeps(ops[0], x);
      GrowsRarely(ops[1..], Step(ops[0], x));
    }
  }
}

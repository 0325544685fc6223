/** The context of definitions (Core/Context.idr): a shared growing array, and a
    record with an area for changes that are not committed yet. Entries are opaque. */
module ContextSpec {
  import opened Base

  const Grow: nat := 10000

  /** The record that is saved and restored. Positions are array indices. */
  datatype Context<E> = Context(next: int, resolved: map<Name, int>, staging: map<int, E>, depth: nat)

  datatype State<E> = State(cells: seq<Option<E>>, ctx: Context<E>)

  function Nones<E>(n: nat): seq<Option<E>> { seq(n, _ => None) }

  function NewEntry<E>(n: Name, s: State<E>): (int, State<E>) {
    var idx := s.ctx.next;
    (idx, State(if idx >= |s.cells| then s.cells + Nones(Grow) else s.cells,
                s.ctx.(next := idx + 1, resolved := s.ctx.resolved[n := idx])))
  }

  function GetPosition<E>(n: Name, s: State<E>): (int, State<E>) {
    if n.Resolved? then (n.id, s)
    else if n in s.ctx.resolved then (s.ctx.resolved[n], s)
    else NewEntry(n, s)
  }

  /** Writing outside the array does nothing. */
  function Write<E>(cells: seq<Option<E>>, i: int, e: E): seq<Option<E>> {
    if 0 <= i < |cells| then cells[i := Some(e)] else cells
  }

  function Read<E>(cells: seq<Option<E>>, i: int): Option<E> {
    if 0 <= i < |cells| then cells[i] else None
  }

  function AddCtxt<E>(n: Name, e: E, s: State<E>): (int, State<E>) {
    var (idx, t) := GetPosition(n, s);
    if s.ctx.depth == 0 then (idx, t.(cells := Write(t.cells, idx, e)))
    else (idx, t.(ctx := t.ctx.(staging := t.ctx.staging[idx := e])))
  }

  /** What a lookup sees: the array overlaid by the staging area. */
  function View<E>(s: State<E>, i: int): Option<E> {
    if i in s.ctx.staging then Some(s.ctx.staging[i]) else Read(s.cells, i)
  }

  function LookupCtxtExact<E>(n: Name, s: State<E>): Option<E> {
    if n.Resolved? then View(s, n.id)
    else if n in s.ctx.resolved then View(s, s.ctx.resolved[n])
    else None
  }

  function BranchCtxt<E>(c: Context<E>): Context<E> { c.(depth := c.depth + 1) }

  function WriteAll<E>(cells: seq<Option<E>>, staged: map<int, E>): (r: seq<Option<E>>)
    ensures |r| == |cells|
  {
    seq(|cells|, i requires 0 <= i < |cells| => if i in staged then Some(staged[i]) else cells[i])
  }

  function CommitCtxt<E>(s: State<E>): State<E> {
    if s.ctx.depth == 0 then s
    else if s.ctx.depth == 1 then State(WriteAll(s.cells, s.ctx.staging), s.ctx.(staging := map[], depth := 0))
    else s.(ctx := s.ctx.(depth := s.ctx.depth - 1))
  }

  // ----- What every step keeps -----

  ghost predicate Valid<E>(s: State<E>) {
    && 0 <= s.ctx.next <= |s.cells|
    && (forall n :: n in s.ctx.resolved ==> !n.Resolved? && 0 <= s.ctx.resolved[n] < s.ctx.next)
    && (forall m, n :: m in s.ctx.resolved && n in s.ctx.resolved && m != n ==> s.ctx.resolved[m] != s.ctx.resolved[n])
    && (forall i :: i in s.ctx.staging ==> 0 <= i < s.ctx.next)
    && (s.ctx.depth == 0 ==> s.ctx.staging == map[])
    && (forall i :: s.ctx.next <= i < |s.cells| ==> s.cells[i] == None)
  }

  /** A resolved name refers to an allocated index. */
  predicate Allocated<E>(n: Name, s: State<E>) { n.Resolved? ==> 0 <= n.id < s.ctx.next }

  /** The array only grows, and what it gains is empty. */
  ghost predicate Extends<E>(cells: seq<Option<E>>, cells': seq<Option<E>>) {
    |cells| <= |cells'| && (forall i :: 0 <= i < |cells| ==> cells'[i] == cells[i]) &&
    (forall i :: |cells| <= i < |cells'| ==> cells'[i] == None)
  }

  lemma PositionKeeps<E>(n: Name, s: State<E>)
    requires Valid(s) && Allocated(n, s)
    ensures
      var (idx, t) := GetPosition(n, s);
      && Valid(t) && Extends(s.cells, t.cells) && 0 <= idx < t.ctx.next && t.ctx.depth == s.ctx.depth
      && t.ctx.staging == s.ctx.staging && s.ctx.next <= t.ctx.next
      && (!n.Resolved? ==> n in t.ctx.resolved && t.ctx.resolved[n] == idx)
      && (forall m :: m in s.ctx.resolved ==> m in t.ctx.resolved && t.ctx.resolved[m] == s.ctx.resolved[m])
      && (forall m :: m in t.ctx.resolved && m != n ==> m in s.ctx.resolved)
  {
  }

  /** Adding sets one entry and changes no other lookup, staged or not. */
  lemma AddSets<E>(n: Name, e: E, s: State<E>)
    requires Valid(s) && Allocated(n, s)
    ensures
      var (idx, t) := AddCtxt(n, e, s);
      && Valid(t) && LookupCtxtExact(n, t) == Some(e) && View(t, idx) == Some(e)
      && (forall i: int :: i != idx ==> View(t, i) == View(s, i))
      && (forall m: Name :: !m.Resolved? && m != n && (n.Resolved? && m in s.ctx.resolved ==> s.ctx.resolved[m] != n.id)
            ==> LookupCtxtExact(m, t) == LookupCtxtExact(m, s))
  {
    PositionKeeps(n, s);
  }

  /** Committing at the outermost branch leaves every lookup as it was exactly when
      every staged index is in the array. */
  lemma CommitIff<E>(s: State<E>)
    requires s.ctx.depth == 1
    ensures (forall i: int :: View(CommitCtxt(s), i) == View(s, i)) <==>
            (forall i :: i in s.ctx.staging ==> 0 <= i < |s.cells|)
  {
    var t := CommitCtxt(s);
    if forall i: int :: View(t, i) == View(s, i) {
      forall i | i in s.ctx.staging ensures 0 <= i < |s.cells| { assert View(t, i) == View(s, i); }
    }
  }

  lemma CommitKeeps<E>(s: State<E>)
    requires Valid(s)
    ensures Valid(CommitCtxt(s)) && |CommitCtxt(s).cells| == |s.cells|
    ensures forall i: int :: View(CommitCtxt(s), i) == View(s, i)
    ensures forall n :: LookupCtxtExact(n, CommitCtxt(s)) == LookupCtxtExact(n, s)
  {
    if s.ctx.depth == 1 { CommitIff(s); }
  }

  // ----- Whole runs -----

  /** A state with the records that branches returned and may still be put back. They
      are worthless once the outermost branch is committed. */
  datatype Session<E> = Session(st: State<E>, saved: seq<Context<E>>)

  datatype Op<E> = Add(n: Name, e: E) | NewName(n: Name) | Branch | Commit | Restore(k: nat)

  /** `addName` always allocates. */
  function AddName<E>(n: Name, s: State<E>): (int, State<E>) {
    if n.Resolved? then (n.id, s) else NewEntry(n, s)
  }

  function Step<E>(op: Op<E>, x: Session<E>): Session<E> {
    match op
    case Add(n, e) => x.(st := AddCtxt(n, e, x.st).1)
    case NewName(n) => x.(st := AddName(n, x.st).1)
    case Branch => Session(x.st.(ctx := BranchCtxt(x.st.ctx)), x.saved + [x.st.ctx])
    case Commit => Session(CommitCtxt(x.st), if x.st.ctx.depth <= 1 then [] else x.saved)
    case Restore(k) => if k < |x.saved| then Session(x.st.(ctx := x.saved[k]), x.saved[..k]) else x
  }

  function Run<E>(ops: seq<Op<E>>, x: Session<E>): Session<E>
    decreases ops
  {
    if ops == [] then x else Run(ops[1..], Step(ops[0], x))
  }

  /** Every resolved name that is added refers to an allocated index. */
  predicate Sensible<E>(ops: seq<Op<E>>, x: Session<E>)
    decreases ops
  {
    ops != [] ==> (ops[0].Add? ==> Allocated(ops[0].n, x.st)) && Sensible(ops[1..], Step(ops[0], x))
  }

  /** The run keeps record `k`: it neither goes back to it or to an earlier one, nor
      commits the outermost branch. */
  predicate Inside<E>(ops: seq<Op<E>>, x: Session<E>, k: nat)
    decreases ops
  {
    |x.saved| > k && (ops != [] ==> Inside(ops[1..], Step(ops[0], x), k))
  }

  /** The state is valid and would be with any saved record; only the first of these
      may be from outside all branches. */
  ghost predicate Ok<E>(x: Session<E>) {
    && Valid(x.st) && (x.saved != [] ==> x.st.ctx.depth >= 1)
    && (forall k :: 0 <= k < |x.saved| ==> Valid(x.st.(ctx := x.saved[k])))
    && (forall k :: 1 <= k < |x.saved| ==> x.saved[k].depth >= 1)
  }

  lemma StepValid<E>(op: Op<E>, x: Session<E>)
    requires Ok(x) && (op.Add? ==> Allocated(op.n, x.st))
    ensures Valid(Step(op, x).st) && |x.st.cells| <= |Step(op, x).st.cells|
    ensures x.saved != [] && Step(op, x).saved != [] ==> Extends(x.st.cells, Step(op, x).st.cells)
  {
    match op
    case Add(n, e) => AddSets(n, e, x.st); PositionKeeps(n, x.st);
    case NewName(n) =>
    case Branch =>
    case Commit => CommitKeeps(x.st);
    case Restore(k) =>
  }

  /** Growing the array leaves a record as good as it was. */
  lemma ExtendsValid<E>(cells: seq<Option<E>>, cells': seq<Option<E>>, c: Context<E>)
    requires Valid(State(cells, c)) && Extends(cells, cells')
    ensures Valid(State(cells', c))
    ensures forall i: int :: View(State(cells', c), i) == View(State(cells, c), i)
  {
  }

  lemma StepKeeps<E>(op: Op<E>, x: Session<E>)
    requires Ok(x) && (op.Add? ==> Allocated(op.n, x.st))
    ensures Ok(Step(op, x)) && |x.st.cells| <= |Step(op, x).st.cells|
  {
    var y := Step(op, x);
    StepValid(op, x);
    forall k | 0 <= k < |y.saved| ensures Valid(y.st.(ctx := y.saved[k])) {
      if k < |x.saved| { ExtendsValid(x.st.cells, y.st.cells, x.saved[k]); }
    }
  }

  /** Over any run, distinct names keep distinct indices and every allocated index
      stays inside the array, also when failed branches are taken back. */
  lemma {:induction false} RunKeeps<E>(ops: seq<Op<E>>, x: Session<E>)
    requires Ok(x) && Sensible(ops, x)
    ensures Ok(Run(ops, x)) && |x.st.cells| <= |Run(ops, x).st.cells|
    decreases ops
  {
    if ops != [] {
      StepKeeps(ops[0], x);
      RunKeeps(ops[1..], Step(ops[0], x));
    }
  }

  lemma ExtendsTrans<E>(a: seq<Option<E>>, b: seq<Option<E>>, c: seq<Option<E>>)
    requires Extends(a, b) && Extends(b, c)
    ensures Extends(a, c)
  {
  }

  /** As long as record `k` is kept nothing is written to the array. */
  lemma {:induction false} InsideExtends<E>(ops: seq<Op<E>>, x: Session<E>, k: nat)
    requires Ok(x) && Sensible(ops, x) && Inside(ops, x, k)
    ensures
      var y := Run(ops, x);
      Extends(x.st.cells, y.st.cells) && Ok(y) && |y.saved| > k && y.saved[..k + 1] == x.saved[..k + 1]
    decreases ops
  {
    if ops != [] {
      var t := Step(ops[0], x);
      StepKeeps(ops[0], x);
      StepValid(ops[0], x);
      InsideExtends(ops[1..], t, k);
      ExtendsTrans(x.st.cells, t.st.cells, Run(ops, x).st.cells);
    }
  }

  /** Going back to what `branch` saved restores every lookup, after any run inside
      the branch, with branches in it that are committed or taken back in turn. */
  lemma BranchRestores<E>(ops: seq<Op<E>>, x: Session<E>)
    requires Ok(x)
    requires
      var b := Step(Branch, x);
      Sensible(ops, b) && Inside(ops, b, |x.saved|)
    ensures
      var t := Step(Restore(|x.saved|), Run(ops, Step(Branch, x)));
      && Ok(t) && t.st.ctx == x.st.ctx && t.saved == x.saved
      && (forall i: int :: View(t.st, i) == View(x.st, i))
      && (forall n :: LookupCtxtExact(n, t.st) == LookupCtxtExact(n, x.st))
  {
    var b, k := Step(Branch, x), |x.saved|;
    StepKeeps(Branch, x);
    InsideExtends(ops, b, k);
    BackToSaved(x, Run(ops, b));
  }

  /** Going back to `x` from a state that extends it and still has its record. */
  lemma BackToSaved<E>(x: Session<E>, y: Session<E>)
    requires Ok(x) && Ok(y) && Extends(x.st.cells, y.st.cells) && |y.saved| > |x.saved|
    requires y.saved[..|x.saved| + 1] == x.saved + [x.st.ctx]
    ensures
      var t := Step(Restore(|x.saved|), y);
      && Ok(t) && t.st.ctx == x.st.ctx && t.saved == x.saved
      && (forall i: int :: View(t.st, i) == View(x.st, i))
      && (forall n :: LookupCtxtExact(n, t.st) == LookupCtxtExact(n, x.st))
  {
    hide Valid, Extends;
    var k := |x.saved|;
    assert y.saved[k] == y.saved[..k + 1][k] == x.st.ctx;
    assert y.saved[..k] == y.saved[..k + 1][..k] == x.saved;
    StepKeeps(Restore(k), y);
    assert x.st == State(x.st.cells, x.st.ctx);
    ExtendsValid(x.st.cells, y.st.cells, x.st.ctx);
  }

  // ----- Committing first -----

  /** What is seen through the saved record if the outermost branch is committed in
      state `u` before the record is put back. */
  function CommittedThenRestored<E>(u: State<E>, saved: Context<E>): State<E> { State(CommitCtxt(u).cells, saved) }

  lemma CommittedView<E>(s: State<E>, u: State<E>, i: int)
    requires Valid(s) && Valid(u) && s.ctx.depth == 0 && u.ctx.depth == 1 && Extends(s.cells, u.cells)
    ensures View(CommittedThenRestored(u, s.ctx), i) == if i in u.ctx.staging then Some(u.ctx.staging[i]) else View(s, i)
  {
  }

  /** After the outermost branch is committed, putting the saved record back restores
      every lookup if and only if every staged entry is what was seen before. */
  lemma CommitRestoresIff<E>(ops: seq<Op<E>>, s: State<E>)
    requires Valid(s) && s.ctx.depth == 0
    requires
      var b := Step(Branch, Session(s, []));
      Sensible(ops, b) && Inside(ops, b, 0) && Run(ops, b).st.ctx.depth == 1
    ensures
      var u := Run(ops, Step(Branch, Session(s, []))).st;
      (forall n :: LookupCtxtExact(n, CommittedThenRestored(u, s.ctx)) == LookupCtxtExact(n, s)) <==>
      (forall i :: i in u.ctx.staging ==> View(s, i) == Some(u.ctx.staging[i]))
  {
    var x := Session(s, []);
    StepKeeps(Branch, x);
    InsideExtends(ops, Step(Branch, x), 0);
    var u := Run(ops, Step(Branch, x)).st;
    var t := CommittedThenRestored(u, s.ctx);
    forall i: int ensures View(t, i) == if i in u.ctx.staging then Some(u.ctx.staging[i]) else View(s, i) {
      CommittedView(s, u, i);
    }
    if forall n :: LookupCtxtExact(n, t) == LookupCtxtExact(n, s) {
      forall i | i in u.ctx.staging ensures View(s, i) == Some(u.ctx.staging[i]) {
        assert LookupCtxtExact(Resolved(i), t) == LookupCtxtExact(Resolved(i), s);
      }
    }
  }

  /** So committing an addition leaks it, unless it changes nothing. */
  lemma CommitLeaks<E>(n: Name, e: E, s: State<E>)
    requires Valid(s) && s.ctx.depth == 0 && n in s.ctx.resolved
    ensures
      var u := Run([Add(n, e)], Step(Branch, Session(s, []))).st;
      var t := CommittedThenRestored(u, s.ctx);
      && LookupCtxtExact(n, t) == Some(e)
      && ((forall m :: LookupCtxtExact(m, t) == LookupCtxtExact(m, s)) <==> LookupCtxtExact(n, s) == Some(e))
  {
    var x := Session(s, []);
    var b, ops := Step(Branch, x), [Add(n, e)];
    var u := Step(ops[0], b);
    assert ops[1..] == [] && Run(ops, b) == Run(ops[1..], u) == u;
    StepKeeps(Branch, x);
    PositionKeeps(n, b.st);
    StepKeeps(ops[0], b);
    assert u.st.ctx.staging == map[s.ctx.resolved[n] := e];
    CommittedView(s, u.st, s.ctx.resolved[n]);
    CommitRestoresIff(ops, s);
  }
}

/** The context as the compiler holds it: the array is shared and replaced on growth. */
module ContextStore {
  import opened Base
  import opened ContextSpec

  lemma SomeIn(s: set<int>)
    ensures (forall i :: i !in s) ==> s == {}
  {
    if forall i :: i !in s { assert s == {}; }
  }

  class Store<E> {
    var arr: array<Option<E>>
    var ctx: Context<E>

    ghost function S(): State<E>
      reads this, arr
    {
      State(arr[..], ctx)
    }

    constructor (size: nat)
      ensures S() == State(Nones(size), Context(0, map[], map[], 0)) && Valid(S()) && fresh(arr)
    {
      arr := new Option<E>[size](_ => None);
      ctx := Context(0, map[], map[], 0);
      new;
      assert arr[..] == Nones(size);
    }

    method NewEntry(n: Name) returns (idx: int)
      modifies this
      ensures (idx, S()) == ContextSpec.NewEntry(n, old(S()))
      ensures arr == old(arr) || fresh(arr)
    {
      idx := ctx.next;
      if idx >= arr.Length {
        var copy := new Option<E>[arr.Length + Grow](i requires 0 <= i && arr.Length >= 0 reads this, arr =>
          if i < arr.Length then arr[i] else None);
        assert copy[..] == arr[..] + Nones(Grow);
        arr := copy;
      }
      ctx := ctx.(next := idx + 1, resolved := ctx.resolved[n := idx]);
    }

    method GetPosition(n: Name) returns (idx: int)
      modifies this
      ensures (idx, S()) == ContextSpec.GetPosition(n, old(S()))
      ensures arr == old(arr) || fresh(arr)
    {
      if n.Resolved? { idx := n.id; }
      else if n in ctx.resolved { idx := ctx.resolved[n]; }
      else { idx := NewEntry(n); }
    }

    method AddCtxt(n: Name, e: E) returns (idx: int)
      modifies this, arr
      ensures (idx, S()) == ContextSpec.AddCtxt(n, e, old(S()))
      ensures arr == old(arr) || fresh(arr)
    {
      if ctx.depth == 0 {
        idx := GetPosition(n);
        if 0 <= idx < arr.Length { arr[idx] := Some(e); }
      } else {
        idx := GetPosition(n);
        ctx := ctx.(staging := ctx.staging[idx := e]);
      }
    }

    method LookupCtxtExact(n: Name) returns (r: Option<E>)
      ensures r == ContextSpec.LookupCtxtExact(n, S())
    {
      var idx;
      if n.Resolved? { idx := n.id; }
      else if n in ctx.resolved { idx := ctx.resolved[n]; }
      else { return None; }
      if idx in ctx.staging { r := Some(ctx.staging[idx]); }
      else if 0 <= idx < arr.Length { r := arr[idx]; }
      else { r := None; }
    }

    /** Returns the record to go back to. */
    method Branch() returns (saved: Context<E>)
      modifies this
      ensures saved == old(ctx) && S() == old(S()).(ctx := BranchCtxt(old(ctx))) && arr == old(arr)
    {
      saved := ctx;
      ctx := ctx.(depth := ctx.depth + 1);
    }

    method Commit()
      modifies this, arr
      ensures S() == CommitCtxt(old(S())) && arr == old(arr)
    {
      if ctx.depth == 1 {
        CommitStaged();
        ctx := ctx.(staging := map[], depth := 0);
      } else if ctx.depth > 1 {
        ctx := ctx.(depth := ctx.depth - 1);
      }
    }

    /** Write the staged entries, in whatever order. */
    method CommitStaged()
      modifies arr
      ensures arr[..] == WriteAll(old(arr[..]), ctx.staging)
    {
      var todo := ctx.staging.Keys;
      while todo != {}
        invariant todo <= ctx.staging.Keys
        invariant forall i :: 0 <= i < arr.Length ==>
          arr[i] == if i in ctx.staging && i !in todo then Some(ctx.staging[i]) else old(arr[i])
        decreases |todo|
      {
        SomeIn(todo);
        var i :| i in todo;
        if 0 <= i < arr.Length { arr[i] := Some(ctx.staging[i]); }
        todo := todo - {i};
      }
    }

    /** `put Ctxt` of a saved record. */
    method Restore(saved: Context<E>)
      modifies this
      ensures S() == State(old(arr[..]), saved) && arr == old(arr)
    {
      ctx := saved;
    }
  }
}

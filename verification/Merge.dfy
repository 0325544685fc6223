/** Moving the lambdas of a definition's body to its argument list
    (Compiler/Inline.idr, with `substs` and `mkLocals` of Core/CompileExpr.idr). */
module Merging {
  import opened Base
  import opened CExpSyntax

  function Ext(i: int): Name { MN("ext", i) }

  /** What `getLams` collects: the binders passed, innermost first, the reference that
      stands for each, and the body under them. */
  datatype Lams = Lams(done: Scope, env: seq<CExp>, body: CExp)

  function GetLams(done: Scope, i: int, env: seq<CExp>, e: CExp): Lams
    decreases e
  {
    if e.CLam? then GetLams([e.x] + done, i + 1, [CRef(Ext(i))] + env, e.body) else Lams(done, env, e)
  }

  /** `find`: a bound variable, a substituted one, or one further out. */
  function SubstVar(env: seq<CExp>, d: nat, i: nat): CExp {
    if i < d then CLocal(i)
    else if i - d < |env| then Weaken(d, env[i - d])
    else Weaken(d, CLocal(i - d - |env|))
  }

  type OnVar = (nat, nat) -> CExp
  type OnRef = (nat, Name) -> CExp

  function SubstOn(env: seq<CExp>): OnVar { (d: nat, i: nat) => SubstVar(env, d, i) }
  function KeepRef(): OnRef { (d: nat, n) => CRef(n) }

  function Substs(env: seq<CExp>, e: CExp): CExp { Traverse(0, SubstOn(env), KeepRef(), e) }

  function GetNewArgs(done: Scope, env: seq<CExp>): Scope
    requires |done| == |env|
  {
    if env == [] then []
    else [if env[0].CRef? then env[0].n else done[0]] + GetNewArgs(done[1..], env[1..])
  }

  function ResolveRef(bounds: seq<Name>, d: nat, n: Name): CExp {
    var found := Find(bounds, n);
    if found.Some? then CLocal(d + found.value) else CRef(n)
  }

  function AddVars(k: nat): OnVar { (d: nat, i: nat) => CLocal(if i < d then i else i + k) }
  function Resolve(bounds: seq<Name>): OnRef { (d: nat, n) => ResolveRef(bounds, d, n) }

  function MkLocals(later: nat, bounds: seq<Name>, e: CExp): CExp {
    Traverse(later, AddVars(|bounds|), Resolve(bounds), e)
  }

  lemma GetLamsShape(done: Scope, i: int, env: seq<CExp>, e: CExp)
    requires |done| == |env|
    ensures |GetLams(done, i, env, e).done| == |GetLams(done, i, env, e).env|
    decreases e
  {
    if e.CLam? { GetLamsShape([e.x] + done, i + 1, [CRef(Ext(i))] + env, e.body); }
  }

  function MergeLambdas(args: Scope, e: CExp): (Scope, CExp) {
    if e.CLam? then
      var lams := GetLams([], 0, [], e);
      GetLamsShape([], 0, [], e);
      var expNs := Substs(lams.env, lams.body);
      var newArgs := Reverse(GetNewArgs(lams.done, lams.env));
      (args + newArgs, MkLocals(|args|, newArgs, expNs))
    else (args, e)
  }
}

module MergingCorrect {
  import opened Base
  import opened CExpSyntax
  import opened CExpEval
  import opened RenamingCorrect
  import opened Merging

  // ----- Two traversals in one -----

  /** `lv`, `rf` do what `lv1`, `rf1` and then, `n` further out, `lv2`, `rf2` do. */
  ghost predicate Fused(n: nat, lv1: OnVar, rf1: OnRef, lv2: OnVar, rf2: OnRef, lv: OnVar, rf: OnRef) {
    (forall d: nat, i: nat :: lv(d, i) == Traverse(n + d, lv2, rf2, lv1(d, i))) &&
    (forall d: nat, m: Name :: rf(d, m) == Traverse(n + d, lv2, rf2, rf1(d, m)))
  }

  lemma {:induction false} TraverseFuse(n: nat, d: nat, lv1: OnVar, rf1: OnRef, lv2: OnVar, rf2: OnRef,
                                        lv: OnVar, rf: OnRef, e: CExp)
    requires Fused(n, lv1, rf1, lv2, rf2, lv, rf)
    ensures Traverse(n + d, lv2, rf2, Traverse(d, lv1, rf1, e)) == Traverse(d, lv, rf, e)
    decreases e
  {
    hide Fused;
    match e
    case CLocal(_) => FuseLeaf(n, d, lv1, rf1, lv2, rf2, lv, rf, e);
    case CRef(_) => FuseLeaf(n, d, lv1, rf1, lv2, rf2, lv, rf, e);
    case CLam(_, b) => TraverseFuse(n, d + 1, lv1, rf1, lv2, rf2, lv, rf, b);
    case CLet(_, _, v, s) =>
      TraverseFuse(n, d, lv1, rf1, lv2, rf2, lv, rf, v);
      TraverseFuse(n, d + 1, lv1, rf1, lv2, rf2, lv, rf, s);
    case CApp(f, args) =>
      TraverseFuse(n, d, lv1, rf1, lv2, rf2, lv, rf, f);
      FuseAll(n, d, lv1, rf1, lv2, rf2, lv, rf, args, Traverse(n + d, lv2, rf2, Traverse(d, lv1, rf1, e)).args, Traverse(d, lv, rf, e).args);
    case CCon(_, _, args) =>
      FuseAll(n, d, lv1, rf1, lv2, rf2, lv, rf, args, Traverse(n + d, lv2, rf2, Traverse(d, lv1, rf1, e)).args, Traverse(d, lv, rf, e).args);
    case COp(_, _, args) =>
      FuseAll(n, d, lv1, rf1, lv2, rf2, lv, rf, args, Traverse(n + d, lv2, rf2, Traverse(d, lv1, rf1, e)).args, Traverse(d, lv, rf, e).args);
    case CExtPrim(_, args) =>
      FuseAll(n, d, lv1, rf1, lv2, rf2, lv, rf, args, Traverse(n + d, lv2, rf2, Traverse(d, lv1, rf1, e)).args, Traverse(d, lv, rf, e).args);
    case CForce(_, t) => TraverseFuse(n, d, lv1, rf1, lv2, rf2, lv, rf, t);
    case CDelay(_, t) => TraverseFuse(n, d, lv1, rf1, lv2, rf2, lv, rf, t);
    case CConCase(_, _, _) => FuseCon(n, d, lv1, rf1, lv2, rf2, lv, rf, e);
    case CConstCase(_, _, _) => FuseConst(n, d, lv1, rf1, lv2, rf2, lv, rf, e);
    case CPrimVal(_) =>
    case CErased =>
    case CCrash(_) =>
  }

  lemma FuseLeaf(n: nat, d: nat, lv1: OnVar, rf1: OnRef, lv2: OnVar, rf2: OnRef, lv: OnVar, rf: OnRef, e: CExp)
    requires Fused(n, lv1, rf1, lv2, rf2, lv, rf) && (e.CLocal? || e.CRef?)
    ensures Traverse(n + d, lv2, rf2, Traverse(d, lv1, rf1, e)) == Traverse(d, lv, rf, e)
  {
  }

  lemma {:induction false} FuseAll(n: nat, d: nat, lv1: OnVar, rf1: OnRef, lv2: OnVar, rf2: OnRef,
                                   lv: OnVar, rf: OnRef, es: seq<CExp>, ts: seq<CExp>, us: seq<CExp>)
    requires Fused(n, lv1, rf1, lv2, rf2, lv, rf) && |ts| == |es| == |us|
    requires forall i :: 0 <= i < |es| ==> ts[i] == Traverse(n + d, lv2, rf2, Traverse(d, lv1, rf1, es[i]))
    requires forall i :: 0 <= i < |es| ==> us[i] == Traverse(d, lv, rf, es[i])
    ensures ts == us
    decreases es, 0
  {
    hide Traverse, Fused;
    forall i | 0 <= i < |es| ensures ts[i] == us[i] { TraverseFuse(n, d, lv1, rf1, lv2, rf2, lv, rf, es[i]); }
  }

  lemma {:induction false} FuseCon(n: nat, d: nat, lv1: OnVar, rf1: OnRef, lv2: OnVar, rf2: OnRef,
                                   lv: OnVar, rf: OnRef, e: CExp)
    requires Fused(n, lv1, rf1, lv2, rf2, lv, rf) && e.CConCase?
    ensures Traverse(n + d, lv2, rf2, Traverse(d, lv1, rf1, e)) == Traverse(d, lv, rf, e)
    decreases e, 0
  {
    var alts := e.conAlts;
    TraverseFuse(n, d, lv1, rf1, lv2, rf2, lv, rf, e.scr);
    if e.def.Some? { TraverseFuse(n, d, lv1, rf1, lv2, rf2, lv, rf, e.def.value); }
    var ts, us := Traverse(n + d, lv2, rf2, Traverse(d, lv1, rf1, e)).conAlts, Traverse(d, lv, rf, e).conAlts;
    forall i | 0 <= i < |alts| ensures ts[i] == us[i] {
      assert (alts decreases to alts[i]);
      TraverseFuse(n, |alts[i].args| + d, lv1, rf1, lv2, rf2, lv, rf, alts[i].body);
    }
    SeqEq(ts, us);
  }

  lemma {:induction false} FuseConst(n: nat, d: nat, lv1: OnVar, rf1: OnRef, lv2: OnVar, rf2: OnRef,
                                     lv: OnVar, rf: OnRef, e: CExp)
    requires Fused(n, lv1, rf1, lv2, rf2, lv, rf) && e.CConstCase?
    ensures Traverse(n + d, lv2, rf2, Traverse(d, lv1, rf1, e)) == Traverse(d, lv, rf, e)
    decreases e, 0
  {
    var alts := e.constAlts;
    TraverseFuse(n, d, lv1, rf1, lv2, rf2, lv, rf, e.scr);
    if e.def.Some? { TraverseFuse(n, d, lv1, rf1, lv2, rf2, lv, rf, e.def.value); }
    var ts, us := Traverse(n + d, lv2, rf2, Traverse(d, lv1, rf1, e)).constAlts, Traverse(d, lv, rf, e).constAlts;
    forall i | 0 <= i < |alts| ensures ts[i] == us[i] {
      assert (alts decreases to alts[i]);
      TraverseFuse(n, d, lv1, rf1, lv2, rf2, lv, rf, alts[i].body);
    }
    SeqEq(ts, us);
  }

  // ----- Merging is a renaming -----

  /** The lambdas at the head of a term, and what is under them. */
  function Depth(e: CExp): nat { if e.CLam? then 1 + Depth(e.body) else 0 }
  function Under(e: CExp): CExp { if e.CLam? then Under(e.body) else e }

  function Exts(k: nat): (s: seq<Name>)
    ensures |s| == k
  {
    seq(k, i => Ext(i))
  }

  lemma {:induction false} GetLamsIs(done: Scope, i: nat, env: seq<CExp>, e: CExp)
    requires |done| == |env| == i
    requires forall j: nat :: j < i ==> env[j] == CRef(Ext(i - 1 - j))
    ensures
      var l := GetLams(done, i, env, e);
      var k := i + Depth(e);
      && l.body == Under(e) && |l.done| == |l.env| == k
      && forall j: nat :: j < k ==> l.env[j] == CRef(Ext(k - 1 - j))
    decreases e
  {
    if e.CLam? { GetLamsIs([e.x] + done, i + 1, [CRef(Ext(i))] + env, e.body); }
  }

  lemma {:induction false} NewArgsIs(done: Scope, env: seq<CExp>)
    requires |done| == |env| && forall j: nat :: j < |env| ==> env[j].CRef?
    ensures |GetNewArgs(done, env)| == |env|
    ensures forall j: nat :: j < |env| ==> GetNewArgs(done, env)[j] == env[j].n
  {
    if env != [] { NewArgsIs(done[1..], env[1..]); }
  }

  /** Of `k` lambdas over `n` arguments: the innermost becomes the last argument. */
  function Merged(n: nat, k: nat): (r: Renaming)
    ensures |r| == k + n && Into(r, n + k)
    ensures forall i: nat :: i < k ==> r[i] == n + (k - 1 - i)
    ensures forall i: nat :: k <= i < k + n ==> r[i] == i - k
  {
    seq(k + n, i => if 0 <= i < k then n + (k - 1 - i) else if i >= k then i - k else 0)
  }

  lemma MergedLookup<T>(vs: seq<T>, xs: seq<T>, i: nat)
    requires i < |xs| + |vs|
    ensures (vs + xs)[Merged(|vs|, |xs|)[i]] == (Reverse(xs) + vs)[i]
  {
    if i < |xs| { MergedLow(vs, xs, i); } else { MergedHigh(vs, xs, i); }
  }

  lemma MergedLow<T>(vs: seq<T>, xs: seq<T>, i: nat)
    requires i < |xs|
    ensures (vs + xs)[Merged(|vs|, |xs|)[i]] == (Reverse(xs) + vs)[i]
  {
    hide Reverse, Merged;
    assert Merged(|vs|, |xs|)[i] == |vs| + (|xs| - 1 - i);
  }

  lemma MergedHigh<T>(vs: seq<T>, xs: seq<T>, i: nat)
    requires |xs| <= i < |xs| + |vs|
    ensures (vs + xs)[Merged(|vs|, |xs|)[i]] == (Reverse(xs) + vs)[i]
  {
    hide Reverse, Merged;
    assert Merged(|vs|, |xs|)[i] == i - |xs|;
  }

  function ToNames(xs: seq<Name>): set<Name> { set x | x in xs }

  lemma {:induction false} FindExt(k: nat, i: nat)
    requires i < k
    ensures Find(Exts(k), Ext(i)) == Some(i)
  {
    assert Exts(k)[i] == Ext(i);
    var f := Find(Exts(k), Ext(i));
    assert Exts(k)[f.value] == Ext(f.value);
  }

  /** Exactly when no reference in the body uses a name that merging generates, the
      merged body is the original one with its variables permuted. */
  lemma MergeIsRen(args: Scope, e: CExp)
    requires e.CLam? && Scoped(e, |args|)
    ensures
      var k := Depth(e);
      && MergeLambdas(args, e).0 == args + Exts(k)
      && (MergeLambdas(args, e).1 == Ren(Merged(|args|, k), Under(e)) <==> !Mentions(ToNames(Exts(k)), Under(e)))
  {
    var n, k, b := |args|, Depth(e), Under(e);
    GetLamsIs([], 0, [], e);
    var lams := GetLams([], 0, [], e);
    NewArgsIs(lams.done, lams.env);
    var names := Reverse(GetNewArgs(lams.done, lams.env));
    assert names == Exts(k);
    MergeTraverse(n, k, lams.env, b) by { UnderScoped(e, n); }
  }

  lemma {:induction false} UnderScoped(e: CExp, n: nat)
    requires Scoped(e, n)
    ensures Scoped(Under(e), Depth(e) + n)
    decreases e
  {
    if e.CLam? { UnderScoped(e.body, n + 1); }
  }

  lemma MergeTraverse(n: nat, k: nat, env: seq<CExp>, b: CExp)
    requires |env| == k && Scoped(b, k + n) && forall j: nat :: j < k ==> env[j] == CRef(Ext(k - 1 - j))
    ensures MkLocals(n, Exts(k), Substs(env, b)) == Ren(Merged(n, k), b) <==> !Mentions(ToNames(Exts(k)), b)
  {
    hide *;
    var names := Exts(k);
    var lv1, rf1, lv2, rf2 := SubstOn(env), KeepRef(), AddVars(k), Resolve(names);
    var lv, rf := Fuse(n, lv1, rf1, lv2, rf2);
    MergeForm(n, k, env, b);
    MergeRenames(n, k, env, lv);
    MergeKeeps(n, k, rf);
    TraverseFuse(n, 0, lv1, rf1, lv2, rf2, lv, rf, b);
    TraverseRenIff(0, lv, rf, ToNames(names), Merged(n, k), b);
  }

  lemma MergeForm(n: nat, k: nat, env: seq<CExp>, b: CExp)
    ensures MkLocals(n, Exts(k), Substs(env, b)) ==
            Traverse(n + 0, AddVars(k), Resolve(Exts(k)), Traverse(0, SubstOn(env), KeepRef(), b))
  {
    hide Traverse, SubstOn, KeepRef, AddVars, Resolve;
    assert |Exts(k)| == k;
  }

  lemma Fuse(n: nat, lv1: OnVar, rf1: OnRef, lv2: OnVar, rf2: OnRef) returns (lv: OnVar, rf: OnRef)
    ensures Fused(n, lv1, rf1, lv2, rf2, lv, rf)
    ensures forall d: nat, i: nat :: lv(d, i) == Traverse(n + d, lv2, rf2, lv1(d, i))
    ensures forall d: nat, m :: rf(d, m) == Traverse(n + d, lv2, rf2, rf1(d, m))
  {
    hide Traverse;
    lv := (d: nat, i: nat) => Traverse(n + d, lv2, rf2, lv1(d, i));
    rf := (d: nat, m) => Traverse(n + d, lv2, rf2, rf1(d, m));
  }

  lemma MergeKeeps(n: nat, k: nat, rf: OnRef)
    requires forall d: nat, m :: rf(d, m) == Traverse(n + d, AddVars(k), Resolve(Exts(k)), KeepRef()(d, m))
    ensures Keeps(rf, ToNames(Exts(k)))
  {
  }

  lemma MergeRenames(n: nat, k: nat, env: seq<CExp>, lv: OnVar)
    requires |env| == k && forall j: nat :: j < k ==> env[j] == CRef(Ext(k - 1 - j))
    requires forall d: nat, i: nat :: lv(d, i) == Traverse(n + d, AddVars(k), Resolve(Exts(k)), SubstOn(env)(d, i))
    ensures Renames(0, lv, Merged(n, k))
  {
    var r := Merged(n, k);
    forall m: nat, i: nat | i < m + |r| ensures lv(0 + m, i) == CLocal(Up(m, r)[i]) {
      if m <= i < m + k { FindExt(k, k - 1 - (i - m)); }
    }
  }

  // ----- Merging preserves meaning -----

  /** Apply a value to arguments one at a time. */
  ghost function ApplyEach(p: CProg, fuel: nat, g: CVal, xs: seq<CVal>): Outcome<CVal>
    decreases xs
  {
    if xs == [] then Value(g)
    else
      var h :- Apply(p, fuel, g, xs[0]);
      ApplyEach(p, fuel, h, xs[1..])
  }

  ghost function EvalThenApply(p: CProg, fuel: nat, env: seq<CVal>, e: CExp, xs: seq<CVal>): Outcome<CVal>
    requires fuel > 0
  {
    var g :- Eval(p, fuel - 1, env, e);
    ApplyEach(p, fuel, g, xs)
  }

  lemma ReverseFirst(xs: seq<CVal>, env: seq<CVal>)
    requires xs != []
    ensures Reverse(xs) + env == Reverse(xs[1..]) + ([xs[0]] + env)
  {
    Assoc(Reverse(xs[1..]), [xs[0]], env);
  }

  lemma Assoc(a: seq<CVal>, b: seq<CVal>, c: seq<CVal>)
    ensures (a + b) + c == a + (b + c)
  {
  }

  /** Applying a term to an argument for each of its lambdas runs what is under them. */
  lemma {:induction false} LamsApply(p: CProg, fuel: nat, env: seq<CVal>, e: CExp, xs: seq<CVal>)
    requires fuel > 0 && |xs| == Depth(e)
    ensures EvalThenApply(p, fuel, env, e, xs) == Eval(p, fuel - 1, Reverse(xs) + env, Under(e))
    decreases e
  {
    if e.CLam? {
      LamsApply(p, fuel, [xs[0]] + env, e.body, xs[1..]);
      ReverseFirst(xs, env);
    } else {
      assert Reverse(xs) + env == env;
    }
  }

  lemma MergedEnv(vs: seq<CVal>, xs: seq<CVal>)
    requires GoodEnv(vs) && GoodEnv(xs)
    ensures SameEnv(Merged(|vs|, |xs|), Reverse(xs) + vs, vs + xs)
  {
    hide Same, Merged, Reverse;
    var old', new', r := Reverse(xs) + vs, vs + xs, Merged(|vs|, |xs|);
    forall i: nat | i < |old'| ensures Same(old'[i], new'[r[i]]) {
      MergedLookup(vs, xs, i);
      if i < |xs| { assert Same(xs[|xs| - 1 - i], xs[|xs| - 1 - i]); } else { assert Same(vs[i - |xs|], vs[i - |xs|]); }
    }
  }

  /** Calling the merged function on all arguments at once comes to the same as
      calling the original one and applying its lambdas, with the same fuel. */
  lemma MergeSame(p: CProg, fuel: nat, args: Scope, e: CExp, vs: seq<CVal>, xs: seq<CVal>)
    requires Proper(p) && fuel > 0 && e.CLam? && Scoped(e, |args|) && !Mentions(ToNames(Exts(Depth(e))), Under(e))
    requires GoodEnv(vs) && GoodEnv(xs) && |vs| == |args| && |xs| == Depth(e)
    ensures |MergeLambdas(args, e).0| == |vs + xs|
    ensures SameOutcome(EvalThenApply(p, fuel, vs, e, xs), Eval(p, fuel - 1, vs + xs, MergeLambdas(args, e).1))
  {
    MergeIsRen(args, e);
    UnderScoped(e, |args|);
    LamsApply(p, fuel, vs, e, xs);
    MergedEnv(vs, xs);
    hide *;
    RenEval(p, fuel - 1, Merged(|vs|, |xs|), Reverse(xs) + vs, vs + xs, Under(e));
  }

  /** A body that does use a generated name is changed: the reference is captured. */
  lemma MergeCaptures(p: CProg, x: Name, c: Constant, v: CVal)
    requires Ext(0) in p.defs && p.defs[Ext(0)] == MkFun([], CPrimVal(c))
    ensures
      var e := CLam(x, CRef(Ext(0)));
      && EvalThenApply(p, 2, [], e, [v]) == Value(CVConst(c))
      && Eval(p, 1, [v], MergeLambdas([], e).1) == Value(v)
  {
    var e := CLam(x, CRef(Ext(0)));
    LamsApply(p, 2, [], e, [v]);
    assert Call(p, 1, Ext(0), []) == Eval(p, 0, [], CPrimVal(c));
    GetLamsIs([], 0, [], e);
    var lams := GetLams([], 0, [], e);
    NewArgsIs(lams.done, lams.env);
    assert Reverse(GetNewArgs(lams.done, lams.env)) == Exts(1);
    FindExt(1, 0);
    assert Substs(lams.env, lams.body) == CRef(Ext(0));
    assert MergeLambdas([], e).1 == CLocal(0);
  }
}

/** Lifting whole programs: what is lifted is well scoped, and a program whose
    lifted names do not clash behaves like its source. */
module LiftProgram {
  import opened Base
  import opened CExpSyntax
  import opened CExpEval
  import opened LiftedSyntax
  import opened LiftedEval
  import opened LambdaLift
  import opened DropUnusedCorrect
  import opened LambdaLiftCorrect

  // ----- Scoping -----

  lemma {:induction false} DropIdxBound(outer: nat, xs: Scope, unused: seq<bool>, i: nat)
    requires |xs| == |unused| && i < outer + |unused| && DropIdx(outer, unused, i).Some?
    ensures DropIdx(outer, unused, i).value < outer + |Dropped(xs, unused)|
    decreases outer + |unused|
  {
    if outer == 0 {
      if i > 0 { DropIdxBound(0, xs[1..], unused[1..], i - 1); }
    } else if i > 0 {
      DropIdxBound(outer - 1, xs, unused, i - 1);
    }
  }

  lemma {:induction false} DropScoped(outer: nat, xs: Scope, unused: seq<bool>, l: Lifted)
    requires |xs| == |unused| && LScoped(l, outer + |unused|) && DropSafe(outer, unused, l)
    ensures LScoped(DropUnused(outer, unused, l), outer + |Dropped(xs, unused)|)
    decreases l
  {
    hide Dropped, DropIdx;
    match l
    case LLocal(i) => DropIdxBound(outer, xs, unused, i);
    case LAppName(_, args) => forall i | 0 <= i < |args| { DropScoped(outer, xs, unused, args[i]); }
    case LUnderApp(_, _, args) => forall i | 0 <= i < |args| { DropScoped(outer, xs, unused, args[i]); }
    case LApp(c, a) => DropScoped(outer, xs, unused, c); DropScoped(outer, xs, unused, a);
    case LLet(_, v, b) => DropScoped(outer, xs, unused, v); DropScoped(outer + 1, xs, unused, b);
    case LCon(_, _, args) => forall i | 0 <= i < |args| { DropScoped(outer, xs, unused, args[i]); }
    case LOp(_, _, args) => forall i | 0 <= i < |args| { DropScoped(outer, xs, unused, args[i]); }
    case LExtPrim(_, args) => forall i | 0 <= i < |args| { DropScoped(outer, xs, unused, args[i]); }
    case LConCase(_, _, _) => DropConScoped(outer, xs, unused, l);
    case LConstCase(_, _, _) => DropConstScoped(outer, xs, unused, l);
    case LPrimVal(_) =>
    case LErased =>
    case LCrash(_) =>
  }

  lemma {:induction false} DropConScoped(outer: nat, xs: Scope, unused: seq<bool>, l: Lifted)
    requires |xs| == |unused| && LScoped(l, outer + |unused|) && DropSafe(outer, unused, l) && l.LConCase?
    ensures LScoped(DropUnused(outer, unused, l), outer + |Dropped(xs, unused)|)
    decreases l, 0
  {
    hide Dropped, DropIdx;
    var alts := l.conAlts;
    DropScoped(outer, xs, unused, l.scr);
    forall i | 0 <= i < |alts| { DropScoped(|alts[i].args| + outer, xs, unused, alts[i].body); }
    if l.def.Some? { DropScoped(outer, xs, unused, l.def.value); }
  }

  lemma {:induction false} DropConstScoped(outer: nat, xs: Scope, unused: seq<bool>, l: Lifted)
    requires |xs| == |unused| && LScoped(l, outer + |unused|) && DropSafe(outer, unused, l) && l.LConstCase?
    ensures LScoped(DropUnused(outer, unused, l), outer + |Dropped(xs, unused)|)
    decreases l, 0
  {
    hide Dropped, DropIdx;
    var alts := l.constAlts;
    DropScoped(outer, xs, unused, l.scr);
    forall i | 0 <= i < |alts| { DropScoped(outer, xs, unused, alts[i].body); }
    if l.def.Some? { DropScoped(outer, xs, unused, l.def.value); }
  }

  predicate ScopedDefs(defs: Defs) {
    forall i :: 0 <= i < |defs| ==> LScopedDef(defs[i].1)
  }

  lemma {:induction false} MakeLamScoped(b: Name, vars: Scope, bound: Scope, k: int, e: CExp)
    requires Scoped(e, |bound| + |vars|)
    ensures ScopedDefs(MakeLam(b, vars, bound, k, e).defs)
    decreases Size(e), 1
  {
    hide LiftExp, DropUnused, Dropped, UnusedIn, LScoped, DropSafe, MkName, AllVars;
    if e.CLam? {
      MakeLamScoped(b, vars, [e.x] + bound, k, e.body);
    } else {
      LiftScoped(b, bound + vars, k, e);
      var l := LiftExp(b, bound + vars, k, e).out;
      var unused := UnusedIn(|bound|, |vars|, l);
      UnusedIsSafe(|bound|, |vars|, l);
      DropScoped(|bound|, vars, unused, l);
    }
  }

  /** Every definition made by lifting is well scoped. */
  lemma {:induction false} LiftScoped(b: Name, vars: Scope, k: int, e: CExp)
    requires Scoped(e, |vars|)
    ensures ScopedDefs(LiftExp(b, vars, k, e).defs)
    decreases Size(e), 0
  {
    hide MkName, UnusedIn, DropUnused, Dropped, AllVars, LScopedDef, LScoped;
    match e
    case CLocal(_) =>
    case CRef(_) =>
    case CLam(x, sc) => MakeLamScoped(b, vars, [x], k, sc);
    case CLet(x, _, v, sc) =>
      LiftScoped(b, vars, k, v);
      LiftScoped(b, [x] + vars, LiftExp(b, vars, k, v).next, sc);
    case CApp(f, args) => AppScoped(b, vars, k, f, args);
    case CCon(_, _, args) => ListScoped(b, vars, k, args);
    case COp(_, _, args) => ListScoped(b, vars, k, args);
    case CExtPrim(_, args) => ListScoped(b, vars, k, args);
    case CForce(_, t) => AppScoped(b, vars, k, t, [CErased]);
    case CDelay(_, t) =>
      WeakenScopedSize(t, |vars|);
      MakeLamScoped(b, vars, [MN("act", 0)], k, Weaken(1, t));
    case CConCase(_, _, _) => ConCaseScoped(b, vars, k, e);
    case CConstCase(_, _, _) => ConstCaseScoped(b, vars, k, e);
    case CPrimVal(_) =>
    case CErased =>
    case CCrash(_) =>
  }

  lemma {:induction false} ConCaseScoped(b: Name, vars: Scope, k: int, e: CExp)
    requires Scoped(e, |vars|) && e.CConCase?
    ensures ScopedDefs(LiftExp(b, vars, k, e).defs)
    decreases Size(e), -1
  {
    hide MkName, UnusedIn, DropUnused, Dropped, AllVars, LScopedDef, LScoped;
    LiftScoped(b, vars, k, e.scr);
    var s' := LiftExp(b, vars, k, e.scr);
    ConAltsScoped(b, vars, s'.next, e.conAlts);
    OptScoped(b, vars, LiftConAlts(b, vars, s'.next, e.conAlts).next, e.def);
  }

  lemma {:induction false} ConstCaseScoped(b: Name, vars: Scope, k: int, e: CExp)
    requires Scoped(e, |vars|) && e.CConstCase?
    ensures ScopedDefs(LiftExp(b, vars, k, e).defs)
    decreases Size(e), -1
  {
    hide MkName, UnusedIn, DropUnused, Dropped, AllVars, LScopedDef, LScoped;
    LiftScoped(b, vars, k, e.scr);
    var s' := LiftExp(b, vars, k, e.scr);
    ConstAltsScoped(b, vars, s'.next, e.constAlts);
    OptScoped(b, vars, LiftConstAlts(b, vars, s'.next, e.constAlts).next, e.def);
  }

  lemma {:induction false} AppScoped(b: Name, vars: Scope, k: int, f: CExp, args: seq<CExp>)
    requires Scoped(f, |vars|) && forall i :: 0 <= i < |args| ==> Scoped(args[i], |vars|)
    ensures ScopedDefs(LiftApp(b, vars, k, f, args).defs)
    decreases Size(f) + SizeList(args), 1
  {
    hide LScopedDef, LScoped;
    ListScoped(b, vars, k, args);
    LiftScoped(b, vars, k, f);
    ListScoped(b, vars, LiftExp(b, vars, k, f).next, args);
  }

  lemma {:induction false} ListScoped(b: Name, vars: Scope, k: int, es: seq<CExp>)
    requires forall i :: 0 <= i < |es| ==> Scoped(es[i], |vars|)
    ensures ScopedDefs(LiftList(b, vars, k, es).defs)
    decreases SizeList(es), 0
  {
    hide LScopedDef, LScoped;
    if es != [] {
      LiftScoped(b, vars, k, es[0]);
      ListScoped(b, vars, LiftExp(b, vars, k, es[0]).next, es[1..]);
    }
  }

  lemma {:induction false} ConAltsScoped(b: Name, vars: Scope, k: int, alts: seq<CConAlt>)
    requires forall i :: 0 <= i < |alts| ==> Scoped(alts[i].body, |alts[i].args| + |vars|)
    ensures ScopedDefs(LiftConAlts(b, vars, k, alts).defs)
    decreases SizeConAlts(alts), 0
  {
    hide LScopedDef, LScoped;
    if alts != [] {
      var a := alts[0];
      LiftScoped(b, a.args + vars, k, a.body);
      ConAltsScoped(b, vars, LiftExp(b, a.args + vars, k, a.body).next, alts[1..]);
    }
  }

  lemma {:induction false} ConstAltsScoped(b: Name, vars: Scope, k: int, alts: seq<CConstAlt>)
    requires forall i :: 0 <= i < |alts| ==> Scoped(alts[i].body, |vars|)
    ensures ScopedDefs(LiftConstAlts(b, vars, k, alts).defs)
    decreases SizeConstAlts(alts), 0
  {
    hide LScopedDef, LScoped;
    if alts != [] {
      LiftScoped(b, vars, k, alts[0].body);
      ConstAltsScoped(b, vars, LiftExp(b, vars, k, alts[0].body).next, alts[1..]);
    }
  }

  lemma {:induction false} OptScoped(b: Name, vars: Scope, k: int, d: Option<CExp>)
    requires d.Some? ==> Scoped(d.value, |vars|)
    ensures ScopedDefs(LiftOpt(b, vars, k, d).defs)
    decreases if d.Some? then Size(d.value) else 0, 1
  {
    hide LScopedDef, LScoped;
    if d.Some? { LiftScoped(b, vars, k, d.value); }
  }

  lemma LiftDefScoped(n: Name, d: CDef)
    requires ScopedDef(d)
    ensures ScopedDefs(LambdaLiftDef(n, d))
  {
    match d
    case MkFun(args, body) => LiftScoped(n, args, 0, body);
    case MkError(expl) => LiftScoped(n, [], 0, expl);
    case _ =>
  }

  // ----- Programs -----

  function LiftAll(ds: seq<(Name, CDef)>): Defs
    requires forall i :: 0 <= i < |ds| ==> ScopedDef(ds[i].1)
  {
    if ds == [] then [] else LambdaLiftDef(ds[0].0, ds[0].1) + LiftAll(ds[1..])
  }

  function ToMap<T>(ds: seq<(Name, T)>): (m: map<Name, T>)
    ensures forall n :: n in m <==> exists i :: 0 <= i < |ds| && ds[i].0 == n
  {
    if ds == [] then map[]
    else
      var m := ToMap(ds[1..]);
      assert forall i :: 1 <= i < |ds| ==> ds[i] == ds[1..][i - 1];
      m[ds[0].0 := ds[0].1]
  }

  predicate DistinctNames<T>(ds: seq<(Name, T)>) {
    forall i, j :: 0 <= i < j < |ds| ==> ds[i].0 != ds[j].0
  }

  lemma {:induction false} ToMapLookup<T>(ds: seq<(Name, T)>, i: nat)
    requires DistinctNames(ds) && i < |ds|
    ensures ds[i].0 in ToMap(ds) && ToMap(ds)[ds[i].0] == ds[i].1
    decreases i
  {
    if i > 0 { ToMapLookup(ds[1..], i - 1); }
  }

  lemma {:induction false} LiftAllAt(ds: seq<(Name, CDef)>, i: nat) returns (at: nat)
    requires forall i :: 0 <= i < |ds| ==> ScopedDef(ds[i].1)
    requires i < |ds|
    ensures var ls := LambdaLiftDef(ds[i].0, ds[i].1);
            at + |ls| <= |LiftAll(ds)| && LiftAll(ds)[at..at + |ls|] == ls
    decreases i
  {
    hide LambdaLiftDef, ScopedDef;
    var first := LambdaLiftDef(ds[0].0, ds[0].1);
    if i == 0 { at := 0; }
    else {
      at := LiftAllAt(ds[1..], i - 1);
      at := at + |first|;
    }
  }

  /** A source program as a list of definitions, and the program it lifts to. */
  function SourceProg(ds: seq<(Name, CDef)>, prim: (PrimKey, seq<CVal>) -> Outcome<CVal>): CProg {
    CProg(ToMap(ds), prim)
  }

  function LiftedProg(ds: seq<(Name, CDef)>, prim: Prims): LProg
    requires forall i :: 0 <= i < |ds| ==> ScopedDef(ds[i].1)
  {
    LProg(ToMap(LiftAll(ds)), prim)
  }

  /** If no two lifted definitions share a name, every definition is found under
      its own name, so the lifted program implements the source program. */
  lemma ProgramLifts(ds: seq<(Name, CDef)>, cprim: (PrimKey, seq<CVal>) -> Outcome<CVal>, prim: Prims)
    requires forall i :: 0 <= i < |ds| ==> ScopedDef(ds[i].1) && ForceOkDef(ds[i].1)
    requires DistinctNames(ds) && DistinctNames(LiftAll(ds))
    requires PrimsRel(SourceProg(ds, cprim), LiftedProg(ds, prim))
    ensures Lifts(SourceProg(ds, cprim), LiftedProg(ds, prim))
    ensures forall n :: n in LiftedProg(ds, prim).defs ==> LScopedDef(LiftedProg(ds, prim).defs[n])
  {
    hide ScopedDef, ForceOkDef, LambdaLiftDef, LiftAll, PrimsRel, LScopedDef;
    var cp, lp := SourceProg(ds, cprim), LiftedProg(ds, prim);
    forall n | n in cp.defs
      ensures ScopedDef(cp.defs[n]) && ForceOkDef(cp.defs[n]) && DefsIn(lp, LambdaLiftDef(n, cp.defs[n]))
    {
      var i :| 0 <= i < |ds| && ds[i].0 == n;
      ToMapLookup(ds, i);
      var at := LiftAllAt(ds, i);
      var ls := LambdaLiftDef(n, ds[i].1);
      forall j | 0 <= j < |ls| ensures ls[j].0 in lp.defs && lp.defs[ls[j].0] == ls[j].1 {
        assert LiftAll(ds)[at..at + |ls|][j] == LiftAll(ds)[at + j];
        ToMapLookup(LiftAll(ds), at + j);
      }
    }
    LiftAllScoped(ds);
    forall n | n in lp.defs ensures LScopedDef(lp.defs[n]) {
      var i :| 0 <= i < |LiftAll(ds)| && LiftAll(ds)[i].0 == n;
      ToMapLookup(LiftAll(ds), i);
    }
  }

  lemma {:induction false} LiftAllScoped(ds: seq<(Name, CDef)>)
    requires forall i :: 0 <= i < |ds| ==> ScopedDef(ds[i].1)
    ensures ScopedDefs(LiftAll(ds))
    decreases |ds|
  {
    hide ScopedDef, LambdaLiftDef, LScopedDef;
    if ds != [] {
      LiftDefScoped(ds[0].0, ds[0].1);
      LiftAllScoped(ds[1..]);
    }
  }

  // ----- Where lifting loses the meaning -----

  /** A definition that takes no arguments. */
  predicate Nullary(d: CDef) { (d.MkFun? && d.args == []) || (d.MkForeign? && d.arity == 0) }

  /** Forcing a global directly calls it with an argument too many. If it takes none
      the lifted run is stuck, and the two runs correspond exactly when the source run
      is stuck as well; otherwise the source run is stuck to begin with. Error
      definitions accept any arguments and are apart. */
  lemma ForcedReferenceIsLost(cp: CProg, lp: LProg, fuel: nat, n: Name, lr: LazyReason, b: Name, k: int,
                              env: seq<CVal>, tenv: seq<Val>)
    requires Lifts(cp, lp)
    requires n in cp.defs && !cp.defs[n].MkError?
    ensures
      var o := Eval(cp, fuel, env, CForce(lr, CRef(n)));
      var t := LEval(lp, fuel, tenv, LiftExp(b, [], k, CForce(lr, CRef(n))).out);
      && (Nullary(cp.defs[n]) ==> t == Stuck)
      && (!Nullary(cp.defs[n]) ==> o == Stuck)
      && (ORel(lp, o, t) <==> o == Stuck)
  {
    hide VRel, PrimsRel;
    ForcedShape(lp, fuel, tenv, n, lr, b, k);
    var d := cp.defs[n];
    var head := LambdaLiftDef(n, d)[0];
    assert head.0 == n && n in lp.defs && lp.defs[n] == head.1;
    ForcedCall(cp, fuel, env, n, lr);
    hide LEval, Eval;
    match d
    case MkFun(args, _) =>
    case MkCon(_, _) =>
    case MkForeign(arity) =>
  }

  /** In particular for a delayed global: the source run is that of the delayed term. */
  lemma ForcedDelay(cp: CProg, lp: LProg, fuel: nat, n: Name, r: LazyReason, body: CExp, lr: LazyReason, b: Name, k: int,
                    env: seq<CVal>, tenv: seq<Val>)
    requires Lifts(cp, lp) && n in cp.defs && cp.defs[n] == MkFun([], CDelay(r, body)) && fuel > 0
    ensures
      var o := Eval(cp, fuel, env, CForce(lr, CRef(n)));
      var t := LEval(lp, fuel, tenv, LiftExp(b, [], k, CForce(lr, CRef(n))).out);
      o == Eval(cp, fuel - 1, [], body) && t == Stuck && (ORel(lp, o, t) <==> o == Stuck)
  {
    ForcedReferenceIsLost(cp, lp, fuel, n, lr, b, k, env, tenv);
    assert Call(cp, fuel, n, []) == Value(CVThunk([], body));
  }

  /** Such programs exist: a delayed constant, forced directly, is the constant in the
      source and stuck when lifted. */
  lemma ForcedConstantIsLost(u: UserName, c: Constant, lr: LazyReason, fuel: nat)
    requires fuel > 0
    ensures
      var n := UN(u);
      var ds := [(n, MkFun([], CDelay(lr, CPrimVal(c))))];
      var cp := SourceProg(ds, (_, _) => Stuck);
      && ScopedDef(ds[0].1)
      && var lp := LiftedProg(ds, (_, _) => Stuck);
         && Lifts(cp, lp)
         && Eval(cp, fuel, [], CForce(lr, CRef(n))) == Value(CVConst(c))
         && LEval(lp, fuel, [], LiftExp(n, [], 0, CForce(lr, CRef(n))).out) == Stuck
  {
    var n := UN(u);
    var d := MkFun([], CDelay(lr, CPrimVal(c)));
    var ds := [(n, d)];
    assert ScopedDef(d) && ForceOkDef(d);
    var cp, lp := SourceProg(ds, (_, _) => Stuck), LiftedProg(ds, (_, _) => Stuck);
    DelayedNames(n, c, lr);
    assert LiftAll(ds) == LambdaLiftDef(n, d);
    ProgramLifts(ds, (_, _) => Stuck, (_, _) => Stuck);
    ToMapLookup(ds, 0);
    ForcedDelay(cp, lp, fuel, n, lr, CPrimVal(c), lr, n, 0, [], []);
  }

  lemma DelayedNames(n: Name, c: Constant, lr: LazyReason)
    requires n.UN?
    ensures ScopedDef(MkFun([], CDelay(lr, CPrimVal(c))))
    ensures DistinctNames(LambdaLiftDef(n, MkFun([], CDelay(lr, CPrimVal(c)))))
  {
    var e := CDelay(lr, CPrimVal(c));
    WeakenScopedSize(CPrimVal(c), 0);
    assert Weaken(1, CPrimVal(c)) == CPrimVal(c);
    var r := LiftExp(n, [], 0, e);
    assert r == MakeLam(n, [], [MN("act", 0)], 0, CPrimVal(c));
    var inner := LiftExp(n, [MN("act", 0)] + [], 0, CPrimVal(c));
    assert |r.defs| == 1 && r.defs[0].0 == MkName(n, 0);
  }

  lemma ForcedCall(cp: CProg, fuel: nat, env: seq<CVal>, n: Name, lr: LazyReason)
    ensures Call(cp, fuel, n, []) == Stuck ==> Eval(cp, fuel, env, CForce(lr, CRef(n))) == Stuck
  {
    hide Call;
    assert Eval(cp, fuel, env, CRef(n)) == Call(cp, fuel, n, []);
  }

  lemma ForcedShape(lp: LProg, fuel: nat, tenv: seq<Val>, n: Name, lr: LazyReason, b: Name, k: int)
    ensures LEval(lp, fuel, tenv, LiftExp(b, [], k, CForce(lr, CRef(n))).out) == LCall(lp, fuel, n, [VErased])
  {
    hide LCall;
    LiftErasedArg(b, [], k);
    assert LiftExp(b, [], k, CForce(lr, CRef(n))).out == LAppName(n, [LErased]);
    var ls := [LErased];
    assert LEval(lp, fuel, tenv, ls[0]) == Value(VErased);
    assert LEvalList(lp, fuel, tenv, ls[1..]) == Value([]);
    assert [VErased] + [] == [VErased];
    assert LEvalList(lp, fuel, tenv, ls) == Value([VErased]);
  }
}

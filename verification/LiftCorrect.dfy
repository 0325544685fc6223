/** Lambda lifting preserves meaning. */
module LambdaLiftCorrect {
  import opened Base
  import opened CExpSyntax
  import opened CExpEval
  import opened LiftedSyntax
  import opened LiftedEval
  import opened LambdaLift
  import opened DropUnusedCorrect

  // ----- What a lambda is lifted to -----

  /** Collect directly nested lambdas, as `makeLam` does. */
  function Peel(n: nat, bound: Scope, e: CExp): (r: (Scope, CExp))
    requires Scoped(e, |bound| + n)
    ensures |r.0| >= |bound| && !r.1.CLam? && Scoped(r.1, |r.0| + n)
    decreases e
  {
    if e.CLam? then Peel(n, [e.x] + bound, e.body) else (bound, e)
  }

  /** The function made for the body `inner` of a peeled lambda. */
  function LiftedFun(b: Name, vars: Scope, bound: Scope, k: int, inner: CExp): (Name, LiftedDef)
    requires Scoped(inner, |bound| + |vars|)
  {
    var l := LiftExp(b, bound + vars, k, inner);
    var unused := UnusedIn(|bound|, |vars|, l.out);
    (MkName(b, l.next), MkLFun(Dropped(vars, unused), bound, DropUnused(|bound|, unused, l.out)))
  }

  function Captures(b: Name, vars: Scope, bound: Scope, k: int, inner: CExp): (r: seq<bool>)
    requires Scoped(inner, |bound| + |vars|)
    ensures |r| == |vars|
  {
    UnusedIn(|bound|, |vars|, LiftExp(b, bound + vars, k, inner).out)
  }

  lemma {:induction false} MakeLamPeel(b: Name, vars: Scope, bound: Scope, k: int, e: CExp)
    requires Scoped(e, |bound| + |vars|)
    ensures var (bf, inner) := Peel(|vars|, bound, e);
            var r := MakeLam(b, vars, bound, k, e);
            && r.out == LUnderApp(LiftedFun(b, vars, bf, k, inner).0, |bf|,
                                  AllVars(0, vars, Captures(b, vars, bf, k, inner)))
            && r.defs == [LiftedFun(b, vars, bf, k, inner)] + LiftExp(b, bf + vars, k, inner).defs
    decreases e
  {
    if e.CLam? { MakeLamPeel(b, vars, [e.x] + bound, k, e.body); }
  }

  /** Passing the kept variables captures exactly their values. */
  lemma {:induction false} AllVarsEval(p: LProg, fuel: nat, pre: seq<Val>, tv: seq<Val>, vs: Scope, unused: seq<bool>)
    requires |tv| == |vs| == |unused|
    ensures LEvalList(p, fuel, pre + tv, AllVars(|pre|, vs, unused)) == Value(Dropped(tv, unused))
    decreases |vs|
  {
    if vs != [] {
      assert pre + tv == (pre + [tv[0]]) + tv[1..];
      AllVarsEval(p, fuel, pre + [tv[0]], tv[1..], vs[1..], unused[1..]);
    }
  }

  // ----- The value relation -----

  ghost predicate DefsIn(lp: LProg, defs: Defs) {
    forall i :: 0 <= i < |defs| ==> defs[i].0 in lp.defs && lp.defs[defs[i].0] == defs[i].1
  }

  lemma DefsInConcat(lp: LProg, a: Defs, b: Defs)
    requires DefsIn(lp, a + b)
    ensures DefsIn(lp, a) && DefsIn(lp, b)
  {
    forall i | 0 <= i < |a| ensures a[i].0 in lp.defs && lp.defs[a[i].0] == a[i].1 {
      assert (a + b)[i] == a[i];
    }
    forall i | 0 <= i < |b| ensures b[i].0 in lp.defs && lp.defs[b[i].0] == b[i].1 {
      assert (a + b)[|a| + i] == b[i];
    }
  }

  /** No name is forced directly. Lifting turns `CForce (CRef n)` into a call of
      `n` with an extra argument, so such a term does not keep its meaning. */
  predicate ForceOk(e: CExp) {
    match e
    case CLocal(_) => true
    case CRef(_) => true
    case CLam(_, b) => ForceOk(b)
    case CLet(_, _, v, s) => ForceOk(v) && ForceOk(s)
    case CApp(f, args) => ForceOk(f) && forall i :: 0 <= i < |args| ==> ForceOk(args[i])
    case CCon(_, _, args) => forall i :: 0 <= i < |args| ==> ForceOk(args[i])
    case COp(_, _, args) => forall i :: 0 <= i < |args| ==> ForceOk(args[i])
    case CExtPrim(_, args) => forall i :: 0 <= i < |args| ==> ForceOk(args[i])
    case CForce(_, t) => !t.CRef? && ForceOk(t)
    case CDelay(_, t) => ForceOk(t)
    case CConCase(s, alts, d) =>
      ForceOk(s) && (forall i :: 0 <= i < |alts| ==> ForceOk(alts[i].body)) &&
      (d.Some? ==> ForceOk(d.value))
    case CConstCase(s, alts, d) =>
      ForceOk(s) && (forall i :: 0 <= i < |alts| ==> ForceOk(alts[i].body)) &&
      (d.Some? ==> ForceOk(d.value))
    case CPrimVal(_) => true
    case CErased => true
    case CCrash(_) => true
  }

  /** How a source closure is represented: its body, renamed by `r`, was lifted in
      scope `vars` under `bound` (its own binder first); `tenv` holds the target
      values of the binders already applied, then of `vars`. */
  datatype Wit = Wit(b: Name, vars: Scope, bound: Scope, k: int, r: Renaming, tenv: seq<Val>)

  /** The body's lifted form is in the program and `v` is its partial application. */
  ghost predicate Represents(lp: LProg, w: Wit, body: CExp, v: Val) {
    && w.bound != []
    && |w.tenv| + 1 == |w.bound| + |w.vars|
    && Scoped(body, |w.r|) && Into(w.r, |w.bound| + |w.vars|)
    && ForceOk(body)
    && var e := Ren(w.r, body);
    && Scoped(e, |w.bound| + |w.vars|)
    && var (bf, inner) := Peel(|w.vars|, w.bound, e);
    && var fn := LiftedFun(w.b, w.vars, bf, w.k, inner);
    && var done := |w.bound| - 1;
    && v == VPap(fn.0, |bf| - done,
                 Dropped(w.tenv[done..], Captures(w.b, w.vars, bf, w.k, inner)) + Reverse(w.tenv[..done]))
    && DefsIn(lp, [fn])
    && DefsIn(lp, LiftExp(w.b, bf + w.vars, w.k, inner).defs)
  }

  ghost predicate VRel(lp: LProg, cv: CVal, v: Val)
    decreases cv, 1
  {
    match cv
    case CVCon(key, args) =>
      v.VCon? && v.key == key && |v.args| == |args| &&
      forall i :: 0 <= i < |args| ==> VRel(lp, args[i], v.args[i])
    case CVConst(c) => v == VConst(c)
    case CVErased => v == VErased
    case CVClo(env, body) => exists w :: Represents(lp, w, body, v) && ViaOk(lp, w, 1, env)
    case CVThunk(env, body) => exists w :: Represents(lp, w, body, v) && ViaOk(lp, w, 0, env)
  }

  /** The closure's environment is represented by `w.tenv`, seen from under the
      lifted binder; `own` is 1 if the source body binds that binder too. */
  ghost predicate ViaOk(lp: LProg, w: Wit, own: nat, env: seq<CVal>)
    decreases env, 0
  {
    && |w.r| == own + |env|
    && (own > 0 ==> w.r[0] == 0)
    && forall i :: 0 <= i < |env| ==>
      1 <= w.r[own + i] <= |w.tenv| && VRel(lp, env[i], w.tenv[w.r[own + i] - 1])
  }

  ghost predicate VRels(lp: LProg, cs: seq<CVal>, vs: seq<Val>) {
    |cs| == |vs| && forall i :: 0 <= i < |cs| ==> VRel(lp, cs[i], vs[i])
  }

  /** Outcomes correspond: a stuck source run promises nothing; any other has the
      same kind of outcome, with related values. */
  ghost predicate ORel(lp: LProg, o: Outcome<CVal>, t: Outcome<Val>) {
    match o
    case Value(cv) => t.Value? && VRel(lp, cv, t.v)
    case Crash(m) => t == Crash(m)
    case Stuck => true
    case Timeout => t == Timeout
  }

  ghost predicate ORels(lp: LProg, o: Outcome<seq<CVal>>, t: Outcome<seq<Val>>) {
    match o
    case Value(cs) => t.Value? && VRels(lp, cs, t.v)
    case Crash(m) => t == Crash(m)
    case Stuck => true
    case Timeout => t == Timeout
  }

  ghost predicate EnvRel(lp: LProg, r: Renaming, env: seq<CVal>, tenv: seq<Val>) {
    |r| == |env| && forall i :: 0 <= i < |r| ==> r[i] < |tenv| && VRel(lp, env[i], tenv[r[i]])
  }

  /** The primitives of the two programs agree on related arguments. */
  ghost predicate PrimsRel(cp: CProg, lp: LProg) {
    forall key, cs, vs :: VRels(lp, cs, vs) ==> ORel(lp, cp.prim(key, cs), lp.prim(key, vs))
  }

  predicate ForceOkDef(d: CDef) {
    match d
    case MkFun(_, body) => ForceOk(body)
    case MkError(expl) => ForceOk(expl)
    case _ => true
  }

  /** `lp` contains what every definition of `cp` lifts to. */
  ghost predicate Lifts(cp: CProg, lp: LProg) {
    && (forall n :: n in cp.defs ==>
          ScopedDef(cp.defs[n]) && ForceOkDef(cp.defs[n]) && DefsIn(lp, LambdaLiftDef(n, cp.defs[n])))
    && PrimsRel(cp, lp)
  }

  // ----- Applying -----

  /** Repeated application in the target, as `unload` builds it. */
  ghost function LEvalApps(p: LProg, fuel: nat, env: seq<Val>, g: Val, ls: seq<Lifted>): Outcome<Val>
    decreases |ls|
  {
    if ls == [] then Value(g)
    else
      var v :- LEval(p, fuel, env, ls[0]);
      var h :- LApply(p, fuel, g, v);
      LEvalApps(p, fuel, env, h, ls[1..])
  }

  lemma {:induction false} UnloadEval(p: LProg, fuel: nat, env: seq<Val>, f: Lifted, ls: seq<Lifted>)
    ensures LEval(p, fuel, env, Unload(f, ls)) ==
            (var g := LEval(p, fuel, env, f); if g.Value? then LEvalApps(p, fuel, env, g.v, ls) else g)
    decreases |ls|
  {
    if ls != [] { UnloadEval(p, fuel, env, LApp(f, ls[0]), ls[1..]); }
  }

  /** Entering a represented body that is itself a lambda: one more argument is
      recorded in the partial application. */
  lemma EnterLambda(lp: LProg, w: Wit, body: CExp, v: Val, env: seq<CVal>, a: Val)
    requires v.VPap? && Represents(lp, w, body, v) && body.CLam?
    requires EnvRel(lp, w.r, env, [a] + w.tenv)
    ensures v.missing > 1
    ensures VRel(lp, CVClo(env, body.body), VPap(v.n, v.missing - 1, v.args + [a]))
  {
    var w' := Entered(w, body.x, a);
    EnterRepresents(lp, w, body, v, a);
    EnterVia(lp, w, body.x, env, a);
    hide Represents, ViaOk, Entered;
    assert Represents(lp, w', body.body, VPap(v.n, v.missing - 1, v.args + [a])) && ViaOk(lp, w', 1, env);
  }

  /** The witness once the lambda binding `x` was applied to `a`. */
  function Entered(w: Wit, x: Name, a: Val): Wit {
    w.(bound := [x] + w.bound, r := Up(1, w.r), tenv := [a] + w.tenv)
  }

  lemma EnterRepresents(lp: LProg, w: Wit, body: CExp, v: Val, a: Val)
    requires v.VPap? && Represents(lp, w, body, v) && body.CLam?
    ensures v.missing > 1
    ensures Represents(lp, Entered(w, body.x, a), body.body, VPap(v.n, v.missing - 1, v.args + [a]))
  {
    hide LambdaLift.LiftExp, LambdaLift.UnusedIn, DropUnused, Dropped;
    var w' := Entered(w, body.x, a);
    var done := |w.bound| - 1;
    ReverseCons(a, w.tenv[..done]);
    assert w'.tenv[..done + 1] == [a] + w.tenv[..done];
    assert w'.tenv[done + 1..] == w.tenv[done..];
    assert Peel(|w.vars|, w.bound, Ren(w.r, body)) == Peel(|w.vars|, w'.bound, Ren(w'.r, body.body));
  }

  lemma EnterVia(lp: LProg, w: Wit, x: Name, env: seq<CVal>, a: Val)
    requires EnvRel(lp, w.r, env, [a] + w.tenv)
    ensures ViaOk(lp, Entered(w, x, a), 1, env)
  {
    hide VRel;
  }

  /** Calling a lifted function with captured values, then its other arguments in
      order, runs the undropped body over the full environment. */
  lemma CallDropped(lp: LProg, fuel: nat, n: Name, vars: Scope, bound: Scope, unused: seq<bool>, l: Lifted,
                    consumed: seq<Val>, tv: seq<Val>, a: Val)
    requires |vars| == |tv| == |unused| && |consumed| + 1 == |bound|
    requires LScoped(l, |bound| + |vars|) && DropSafe(|bound|, unused, l)
    requires n in lp.defs
    requires lp.defs[n] == MkLFun(Dropped(vars, unused), bound, DropUnused(|bound|, unused, l))
    requires fuel > 0
    ensures LCall(lp, fuel, n, Dropped(tv, unused) + Reverse(consumed) + [a]) ==
            LEval(lp, fuel - 1, [a] + (consumed + tv), l)
  {
    hide DropUnused, Dropped, DropSafe, LScoped, LEval, Reverse, EntryEnv;
    DroppedLength(tv, vars, unused);
    var kept := Dropped(tv, unused);
    EntryEnvIs(kept, consumed, a);
    DropEval(lp, fuel - 1, [a] + consumed, tv, unused, l);
    assert ([a] + consumed) + tv == [a] + (consumed + tv);
  }

  lemma EntryEnvIs(kept: seq<Val>, consumed: seq<Val>, a: Val)
    ensures EntryEnv(|kept|, kept + Reverse(consumed) + [a]) == ([a] + consumed) + kept
  {
    var vs := kept + Reverse(consumed) + [a];
    assert vs[..|kept|] == kept && vs[|kept|..] == Reverse(consumed) + [a];
    ReverseCons(a, consumed);
    ReverseTwice([a] + consumed);
  }

  /** Entering any other represented body: the last argument has arrived, and the
      lifted function runs its body in the environment the source would use. */
  lemma EnterBody(lp: LProg, fuel: nat, w: Wit, body: CExp, v: Val, a: Val)
    requires v.VPap? && Represents(lp, w, body, v) && !body.CLam?
    requires fuel > 0
    ensures v.missing == 1
    ensures Scoped(Ren(w.r, body), |w.bound + w.vars|)
    ensures LCall(lp, fuel, v.n, v.args + [a]) ==
            LEval(lp, fuel - 1, [a] + w.tenv, LiftExp(w.b, w.bound + w.vars, w.k, Ren(w.r, body)).out)
  {
    hide LiftExp, UnusedIn, DropUnused, Dropped, LEval, LCall, LScoped, DropSafe;
    var e := Ren(w.r, body);
    assert Peel(|w.vars|, w.bound, e) == (w.bound, e);
    var l := LiftExp(w.b, w.bound + w.vars, w.k, e).out;
    var unused := Captures(w.b, w.vars, w.bound, w.k, e);
    var done := |w.bound| - 1;
    var fn := LiftedFun(w.b, w.vars, w.bound, w.k, e);
    assert [fn][0] == fn;
    UnusedIsSafe(|w.bound|, |w.vars|, l);
    CallDropped(lp, fuel, fn.0, w.vars, w.bound, unused, l, w.tenv[..done], w.tenv[done..], a);
    assert w.tenv[..done] + w.tenv[done..] == w.tenv;
  }

  lemma {:induction false} DroppedLength<T, U>(xs: seq<T>, ys: seq<U>, drop: seq<bool>)
    requires |xs| == |ys| == |drop|
    ensures |Dropped(xs, drop)| == |Dropped(ys, drop)|
  {
    if xs != [] { DroppedLength(xs[1..], ys[1..], drop[1..]); }
  }

  // ----- The simulation -----

  /** Where a term is evaluated: the scope it was lifted in, the renaming from the
      source scope, and the two environments. */
  datatype Frame = Frame(b: Name, vars: Scope, r: Renaming, env: seq<CVal>, tenv: seq<Val>)

  ghost predicate FrameOk(lp: LProg, fr: Frame) {
    |fr.tenv| == |fr.vars| && EnvRel(lp, fr.r, fr.env, fr.tenv)
  }

  function Extend(fr: Frame, xs: Scope, cs: seq<CVal>, vs: seq<Val>): Frame {
    Frame(fr.b, xs + fr.vars, Up(|xs|, fr.r), cs + fr.env, vs + fr.tenv)
  }

  lemma ExtendOk(lp: LProg, fr: Frame, xs: Scope, cs: seq<CVal>, vs: seq<Val>)
    requires FrameOk(lp, fr) && |xs| == |cs| && VRels(lp, cs, vs)
    ensures FrameOk(lp, Extend(fr, xs, cs, vs))
  {
    hide VRel;
  }

  predicate CanLift(fr: Frame, e: CExp) {
    Scoped(e, |fr.r|) && ForceOk(e) && Scoped(Ren(fr.r, e), |fr.vars|)
  }

  function LiftIn(fr: Frame, k: int, e: CExp): (r: Res<Lifted>)
    requires CanLift(fr, e)
    ensures LScoped(r.out, |fr.vars|)
  {
    LiftExp(fr.b, fr.vars, k, Ren(fr.r, e))
  }

  /** `rs` are the terms `es`, renamed for the frame. */
  predicate CanLiftAll(fr: Frame, es: seq<CExp>, rs: seq<CExp>) {
    |rs| == |es| && forall i :: 0 <= i < |es| ==> CanLift(fr, es[i]) && rs[i] == Ren(fr.r, es[i])
  }

  /** The lifted form of the `i`th alternative. */
  lemma {:induction false} LiftConAltAt(lp: LProg, b: Name, vars: Scope, k: int, alts: seq<CConAlt>, i: nat)
    returns (ki: int)
    requires forall i :: 0 <= i < |alts| ==> Scoped(alts[i].body, |alts[i].args| + |vars|)
    requires DefsIn(lp, LiftConAlts(b, vars, k, alts).defs)
    requires i < |alts|
    ensures var l := LiftExp(b, alts[i].args + vars, ki, alts[i].body);
            LiftConAlts(b, vars, k, alts).out[i] == MkLConAlt(alts[i].con, alts[i].tag, alts[i].args, l.out)
            && DefsIn(lp, l.defs)
    decreases |alts|
  {
    hide LiftExp, Scoped;
    var h := LiftExp(b, alts[0].args + vars, k, alts[0].body);
    DefsInConcat(lp, LiftConAlts(b, vars, h.next, alts[1..]).defs, h.defs);
    if i == 0 { ki := k; } else { ki := LiftConAltAt(lp, b, vars, h.next, alts[1..], i - 1); }
  }

  lemma {:induction false} LiftConstAltAt(lp: LProg, b: Name, vars: Scope, k: int, alts: seq<CConstAlt>, i: nat)
    returns (ki: int)
    requires forall i :: 0 <= i < |alts| ==> Scoped(alts[i].body, |vars|)
    requires DefsIn(lp, LiftConstAlts(b, vars, k, alts).defs)
    requires i < |alts|
    ensures var l := LiftExp(b, vars, ki, alts[i].body);
            LiftConstAlts(b, vars, k, alts).out[i] == MkLConstAlt(alts[i].c, l.out)
            && DefsIn(lp, l.defs)
    decreases |alts|
  {
    hide LiftExp, Scoped;
    var h := LiftExp(b, vars, k, alts[0].body);
    DefsInConcat(lp, LiftConstAlts(b, vars, h.next, alts[1..]).defs, h.defs);
    if i == 0 { ki := k; } else { ki := LiftConstAltAt(lp, b, vars, h.next, alts[1..], i - 1); }
  }

  lemma LiftedKeys(b: Name, vars: Scope, k: int, alts: seq<CConAlt>)
    requires forall i :: 0 <= i < |alts| ==> Scoped(alts[i].body, |alts[i].args| + |vars|)
    ensures LAltKeys(LiftConAlts(b, vars, k, alts).out) == AltKeys(alts)
    decreases |alts|
  {
    hide LiftExp, Scoped;
    if alts != [] {
      LiftedKeys(b, vars, LiftExp(b, alts[0].args + vars, k, alts[0].body).next, alts[1..]);
      assert AltKeys(alts) == [KeyOf(alts[0].con, alts[0].tag)] + AltKeys(alts[1..]);
      var out := LiftConAlts(b, vars, k, alts).out;
      assert LAltKeys(out) == [KeyOf(out[0].con, out[0].tag)] + LAltKeys(out[1..]);
    }
  }

  lemma LiftedConsts(b: Name, vars: Scope, k: int, alts: seq<CConstAlt>)
    requires forall i :: 0 <= i < |alts| ==> Scoped(alts[i].body, |vars|)
    ensures LAltConsts(LiftConstAlts(b, vars, k, alts).out) == AltConsts(alts)
    decreases |alts|
  {
    hide LiftExp, Scoped;
    if alts != [] {
      LiftedConsts(b, vars, LiftExp(b, vars, k, alts[0].body).next, alts[1..]);
      assert AltConsts(alts) == [alts[0].c] + AltConsts(alts[1..]);
      var out := LiftConstAlts(b, vars, k, alts).out;
      assert LAltConsts(out) == [out[0].c] + LAltConsts(out[1..]);
    }
  }

  lemma {:induction false} Sim(cp: CProg, lp: LProg, fuel: nat, fr: Frame, k: int, e: CExp)
    requires Lifts(cp, lp) && FrameOk(lp, fr) && CanLift(fr, e)
    requires DefsIn(lp, LiftIn(fr, k, e).defs)
    ensures ORel(lp, Eval(cp, fuel, fr.env, e), LEval(lp, fuel, fr.tenv, LiftIn(fr, k, e).out))
    decreases fuel, 2, e, 1
  {
    match e
    case CLocal(_) =>
    case CRef(n) => CallSim(cp, lp, fuel, n, [], []);
    case CLam(_, _) => SimLam(cp, lp, fuel, fr, k, e);
    case CLet(_, _, _, _) => SimLet(cp, lp, fuel, fr, k, e);
    case CApp(f, args) =>
      if f.CRef? { SimCall(cp, lp, fuel, fr, k, e); } else { SimApp(cp, lp, fuel, fr, k, e); }
    case CCon(_, _, args) => SimArgs(cp, lp, fuel, fr, k, e);
    case COp(_, _, args) => SimArgs(cp, lp, fuel, fr, k, e);
    case CExtPrim(_, args) => SimArgs(cp, lp, fuel, fr, k, e);
    case CForce(_, _) => SimForce(cp, lp, fuel, fr, k, e);
    case CDelay(_, _) => SimDelay(cp, lp, fuel, fr, k, e);
    case CConCase(_, _, _) => SimConCase(cp, lp, fuel, fr, k, e);
    case CConstCase(_, _, _) => SimConstCase(cp, lp, fuel, fr, k, e);
    case CPrimVal(_) =>
    case CErased =>
    case CCrash(_) =>
  }

  /** The value of a lambda or of a delayed term is represented by the partial
      application its lifted form evaluates to. */
  lemma MakeLamRepresents(lp: LProg, fuel: nat, fr: Frame, k: int, x: Name, r: Renaming, body: CExp)
    requires |fr.tenv| == |fr.vars|
    requires Scoped(body, |r|) && Into(r, 1 + |fr.vars|) && ForceOk(body)
    requires Scoped(Ren(r, body), 1 + |fr.vars|)
    requires DefsIn(lp, MakeLam(fr.b, fr.vars, [x], k, Ren(r, body)).defs)
    ensures var o := LEval(lp, fuel, fr.tenv, MakeLam(fr.b, fr.vars, [x], k, Ren(r, body)).out);
            o.Value? && Represents(lp, Wit(fr.b, fr.vars, [x], k, r, fr.tenv), body, o.v)
  {
    hide LiftExp, UnusedIn, DropUnused, Dropped, AllVars, Scoped, ForceOk, Ren, Peel, Captures;
    var e := Ren(r, body);
    MakeLamPeel(fr.b, fr.vars, [x], k, e);
    var (bf, inner) := Peel(|fr.vars|, [x], e);
    var fn := LiftedFun(fr.b, fr.vars, bf, k, inner);
    DefsInConcat(lp, [fn], LiftExp(fr.b, bf + fr.vars, k, inner).defs);
    var unused := Captures(fr.b, fr.vars, bf, k, inner);
    AllVarsEval(lp, fuel, [], fr.tenv, fr.vars, unused);
    assert [] + fr.tenv == fr.tenv;
    assert fr.tenv[0..] == fr.tenv && Reverse(fr.tenv[..0]) == [];
    assert Dropped(fr.tenv, unused) + [] == Dropped(fr.tenv, unused);
  }

  lemma SimLam(cp: CProg, lp: LProg, fuel: nat, fr: Frame, k: int, e: CExp)
    requires e.CLam?
    requires FrameOk(lp, fr) && CanLift(fr, e)
    requires DefsIn(lp, LiftIn(fr, k, e).defs)
    ensures ORel(lp, Eval(cp, fuel, fr.env, e), LEval(lp, fuel, fr.tenv, LiftIn(fr, k, e).out))
  {
    hide MakeLam, LEval, Represents;
    var r := Up(1, fr.r);
    MakeLamRepresents(lp, fuel, fr, k, e.x, r, e.body);
    var w := Wit(fr.b, fr.vars, [e.x], k, r, fr.tenv);
    assert ViaOk(lp, w, 1, fr.env);
  }

  lemma SimDelay(cp: CProg, lp: LProg, fuel: nat, fr: Frame, k: int, e: CExp)
    requires e.CDelay?
    requires FrameOk(lp, fr) && CanLift(fr, e)
    requires DefsIn(lp, LiftIn(fr, k, e).defs)
    ensures ORel(lp, Eval(cp, fuel, fr.env, e), LEval(lp, fuel, fr.tenv, LiftIn(fr, k, e).out))
  {
    hide MakeLam, LEval, Represents;
    var shift := Insertion(0, 1, |fr.vars|);
    var r := Compose(shift, fr.r);
    InsertNamesIsRen(0, 1, |fr.vars|, Ren(fr.r, e.tm));
    RenCompose(shift, fr.r, e.tm);
    WeakenScopedSize(Ren(fr.r, e.tm), |fr.vars|);
    MakeLamRepresents(lp, fuel, fr, k, MN("act", 0), r, e.tm);
    var w := Wit(fr.b, fr.vars, [MN("act", 0)], k, r, fr.tenv);
    assert ViaOk(lp, w, 0, fr.env);
  }

  lemma UnfoldLet(fr: Frame, k: int, e: CExp)
    requires e.CLet? && CanLift(fr, e)
    ensures LiftIn(fr, k, e) == LiftLet(fr.b, fr.vars, k, e.lx, Ren(fr.r, e.val), Ren(Up(1, fr.r), e.sc))
    ensures CanLift(fr, e.val)
  {
  }

  lemma UnfoldApp(fr: Frame, k: int, e: CExp)
    requires e.CApp? && CanLift(fr, e)
    ensures CanLift(fr, e.f) && CanLiftAll(fr, e.args, Ren(fr.r, e).args)
    ensures LiftIn(fr, k, e) == LiftApp(fr.b, fr.vars, k, Ren(fr.r, e.f), Ren(fr.r, e).args)
    ensures Ren(fr.r, e.f).CRef? <==> e.f.CRef?
  {
    var re := Ren(fr.r, e);
    forall i | 0 <= i < |e.args| ensures CanLift(fr, e.args[i]) && re.args[i] == Ren(fr.r, e.args[i]) {
      assert Scoped(re.args[i], |fr.vars|);
    }
  }

  lemma UnfoldForce(fr: Frame, k: int, e: CExp)
    requires e.CForce? && CanLift(fr, e)
    ensures CanLift(fr, e.tm)
    ensures LiftIn(fr, k, e) == LiftApp(fr.b, fr.vars, k, Ren(fr.r, e.tm), [CErased])
    ensures !Ren(fr.r, e.tm).CRef?
  {
  }

  lemma LiftErasedArg(b: Name, vars: Scope, k: int)
    ensures LiftList(b, vars, k, [CErased]) == Res([LErased], [], k)
  {
    var es := [CErased];
    var h := LiftExp(b, vars, k, es[0]);
    var t := LiftList(b, vars, h.next, es[1..]);
    assert h == Res(LErased, [], k) && t == Res([], [], k);
    assert [h.out] + t.out == [LErased] && t.defs + h.defs == [];
  }

  lemma UnfoldConCase(fr: Frame, k: int, e: CExp)
    requires e.CConCase? && CanLift(fr, e)
    ensures CanLift(fr, e.scr) && (e.def.Some? ==> CanLift(fr, e.def.value))
    ensures var re := Ren(fr.r, e);
            LiftIn(fr, k, e) == LiftConCase(fr.b, fr.vars, k, Ren(fr.r, e.scr), re.conAlts, re.def)
  {
  }

  lemma UnfoldConstCase(fr: Frame, k: int, e: CExp)
    requires e.CConstCase? && CanLift(fr, e)
    ensures CanLift(fr, e.scr) && (e.def.Some? ==> CanLift(fr, e.def.value))
    ensures forall i :: 0 <= i < |e.constAlts| ==> CanLift(fr, e.constAlts[i].body)
    ensures var re := Ren(fr.r, e);
            LiftIn(fr, k, e) == LiftConstCase(fr.b, fr.vars, k, Ren(fr.r, e.scr), re.constAlts, re.def)
  {
    var re := Ren(fr.r, e);
    forall i | 0 <= i < |e.constAlts| ensures CanLift(fr, e.constAlts[i].body) {
      assert re.constAlts[i].body == Ren(fr.r, e.constAlts[i].body);
    }
  }

  lemma SimLet(cp: CProg, lp: LProg, fuel: nat, fr: Frame, k: int, e: CExp)
    requires e.CLet?
    requires Lifts(cp, lp) && FrameOk(lp, fr) && CanLift(fr, e)
    requires DefsIn(lp, LiftIn(fr, k, e).defs)
    ensures ORel(lp, Eval(cp, fuel, fr.env, e), LEval(lp, fuel, fr.tenv, LiftIn(fr, k, e).out))
    decreases fuel, 2, e, 0
  {
    hide VRel, Lifts, FrameOk, LiftExp;
    UnfoldLet(fr, k, e);
    var v' := LiftIn(fr, k, e.val);
    var xs := [e.lx];
    var s' := LiftExp(fr.b, xs + fr.vars, v'.next, Ren(Up(1, fr.r), e.sc));
    DefsInConcat(lp, s'.defs, v'.defs);
    Sim(cp, lp, fuel, fr, k, e.val);
    var cv, v := Eval(cp, fuel, fr.env, e.val), LEval(lp, fuel, fr.tenv, v'.out);
    if cv.Value? {
      ExtendOk(lp, fr, xs, [cv.v], [v.v]);
      Sim(cp, lp, fuel, Extend(fr, xs, [cv.v], [v.v]), v'.next, e.sc);
    }
  }

  lemma {:induction false} SimList(cp: CProg, lp: LProg, fuel: nat, fr: Frame, k: int, es: seq<CExp>, rs: seq<CExp>)
    requires Lifts(cp, lp) && FrameOk(lp, fr) && CanLiftAll(fr, es, rs)
    requires DefsIn(lp, LiftList(fr.b, fr.vars, k, rs).defs)
    ensures ORels(lp, EvalList(cp, fuel, fr.env, es),
                  LEvalList(lp, fuel, fr.tenv, LiftList(fr.b, fr.vars, k, rs).out))
    decreases fuel, 2, es, 1
  {
    hide LiftExp, Eval, LEval, VRel, Lifts, FrameOk, Scoped, ForceOk, Ren;
    if es != [] {
      var h := LiftExp(fr.b, fr.vars, k, rs[0]);
      var t := LiftList(fr.b, fr.vars, h.next, rs[1..]);
      DefsInConcat(lp, t.defs, h.defs);
      Sim(cp, lp, fuel, fr, k, es[0]);
      assert LiftList(fr.b, fr.vars, k, rs).out[1..] == t.out;
      SimList(cp, lp, fuel, fr, h.next, es[1..], rs[1..]);
    }
  }

  lemma {:induction false} SimApps(cp: CProg, lp: LProg, fuel: nat, fr: Frame, k: int, g: CVal, g': Val,
                                   es: seq<CExp>, rs: seq<CExp>)
    requires Lifts(cp, lp) && FrameOk(lp, fr) && CanLiftAll(fr, es, rs) && VRel(lp, g, g')
    requires DefsIn(lp, LiftList(fr.b, fr.vars, k, rs).defs)
    ensures ORel(lp, EvalApps(cp, fuel, fr.env, g, es),
                 LEvalApps(lp, fuel, fr.tenv, g', LiftList(fr.b, fr.vars, k, rs).out))
    decreases fuel, 2, es, 1
  {
    hide LiftExp, Eval, LEval, VRel, Lifts, FrameOk, Scoped, ForceOk, Ren, Apply, LApply;
    if es != [] {
      var h := LiftExp(fr.b, fr.vars, k, rs[0]);
      var t := LiftList(fr.b, fr.vars, h.next, rs[1..]);
      DefsInConcat(lp, t.defs, h.defs);
      Sim(cp, lp, fuel, fr, k, es[0]);
      assert LiftList(fr.b, fr.vars, k, rs).out[1..] == t.out;
      var a, a' := Eval(cp, fuel, fr.env, es[0]), LEval(lp, fuel, fr.tenv, h.out);
      if a.Value? {
        ApplySim(cp, lp, fuel, g, g', a.v, a'.v);
        var r, r' := Apply(cp, fuel, g, a.v), LApply(lp, fuel, g', a'.v);
        if r.Value? { SimApps(cp, lp, fuel, fr, h.next, r.v, r'.v, es[1..], rs[1..]); }
      }
    }
  }

  lemma SimCall(cp: CProg, lp: LProg, fuel: nat, fr: Frame, k: int, e: CExp)
    requires e.CApp? && e.f.CRef?
    requires Lifts(cp, lp) && FrameOk(lp, fr) && CanLift(fr, e)
    requires DefsIn(lp, LiftIn(fr, k, e).defs)
    ensures ORel(lp, Eval(cp, fuel, fr.env, e), LEval(lp, fuel, fr.tenv, LiftIn(fr, k, e).out))
    decreases fuel, 2, e, 0
  {
    hide VRel, Lifts, FrameOk, LiftList, Call, LCall, LiftExp;
    UnfoldApp(fr, k, e);
    var rs := Ren(fr.r, e).args;
    SimList(cp, lp, fuel, fr, k, e.args, rs);
    var cs, vs := EvalList(cp, fuel, fr.env, e.args),
                  LEvalList(lp, fuel, fr.tenv, LiftList(fr.b, fr.vars, k, rs).out);
    if cs.Value? { CallSim(cp, lp, fuel, e.f.n, cs.v, vs.v); }
  }

  lemma SimArgs(cp: CProg, lp: LProg, fuel: nat, fr: Frame, k: int, e: CExp)
    requires e.CCon? || e.COp? || e.CExtPrim?
    requires Lifts(cp, lp) && FrameOk(lp, fr) && CanLift(fr, e)
    requires DefsIn(lp, LiftIn(fr, k, e).defs)
    ensures ORel(lp, Eval(cp, fuel, fr.env, e), LEval(lp, fuel, fr.tenv, LiftIn(fr, k, e).out))
    decreases fuel, 2, e, 0
  {
    hide FrameOk, LiftList;
    var re := Ren(fr.r, e);
    forall i | 0 <= i < |e.args| ensures CanLift(fr, e.args[i]) && re.args[i] == Ren(fr.r, e.args[i]) {
      assert Scoped(re.args[i], |fr.vars|);
    }
    SimList(cp, lp, fuel, fr, k, e.args, Ren(fr.r, e).args);
  }

  lemma SimApp(cp: CProg, lp: LProg, fuel: nat, fr: Frame, k: int, e: CExp)
    requires e.CApp? && !e.f.CRef?
    requires Lifts(cp, lp) && FrameOk(lp, fr) && CanLift(fr, e)
    requires DefsIn(lp, LiftIn(fr, k, e).defs)
    ensures ORel(lp, Eval(cp, fuel, fr.env, e), LEval(lp, fuel, fr.tenv, LiftIn(fr, k, e).out))
    decreases fuel, 2, e, 0
  {
    hide VRel, Lifts, FrameOk, LiftList, LiftExp;
    UnfoldApp(fr, k, e);
    var rs := Ren(fr.r, e).args;
    var f' := LiftIn(fr, k, e.f);
    var as' := LiftList(fr.b, fr.vars, f'.next, rs);
    DefsInConcat(lp, as'.defs, f'.defs);
    Sim(cp, lp, fuel, fr, k, e.f);
    UnloadEval(lp, fuel, fr.tenv, f'.out, as'.out);
    var g, g' := Eval(cp, fuel, fr.env, e.f), LEval(lp, fuel, fr.tenv, f'.out);
    if g.Value? { SimApps(cp, lp, fuel, fr, f'.next, g.v, g'.v, e.args, rs); }
  }

  lemma SimForce(cp: CProg, lp: LProg, fuel: nat, fr: Frame, k: int, e: CExp)
    requires e.CForce?
    requires Lifts(cp, lp) && FrameOk(lp, fr) && CanLift(fr, e)
    requires DefsIn(lp, LiftIn(fr, k, e).defs)
    ensures ORel(lp, Eval(cp, fuel, fr.env, e), LEval(lp, fuel, fr.tenv, LiftIn(fr, k, e).out))
    decreases fuel, 2, e, 0
  {
    hide VRel, Lifts, FrameOk, Force, LApply, LiftExp, LiftList;
    UnfoldForce(fr, k, e);
    var f' := LiftIn(fr, k, e.tm);
    LiftErasedArg(fr.b, fr.vars, f'.next);
    assert LiftIn(fr, k, e) == Res(Unload(f'.out, [LErased]), [] + f'.defs, f'.next);
    assert [] + f'.defs == f'.defs;
    Sim(cp, lp, fuel, fr, k, e.tm);
    UnloadEval(lp, fuel, fr.tenv, f'.out, [LErased]);
    var g, g' := Eval(cp, fuel, fr.env, e.tm), LEval(lp, fuel, fr.tenv, f'.out);
    if g.Value? { ForceSim(cp, lp, fuel, g.v, g'.v); }
  }

  /** A matching source value and its target pick the same alternative. */
  lemma SamePick(lp: LProg, keys: seq<ConKey>, alts: seq<CConAlt>, x: CVal, v: Val)
    requires VRel(lp, x, v) && keys == AltKeys(alts)
    ensures PickCon(alts, x) == PickKey(keys, v)
    ensures x.CVCon? ==> v.VCon? && VRels(lp, x.args, v.args)
  {
  }

  lemma SamePickConst(lp: LProg, cs: seq<Constant>, alts: seq<CConstAlt>, x: CVal, v: Val)
    requires VRel(lp, x, v) && cs == AltConsts(alts)
    ensures PickConst(alts, x) == PickVal(cs, v)
  {
  }

  lemma SimConCase(cp: CProg, lp: LProg, fuel: nat, fr: Frame, k: int, e: CExp)
    requires e.CConCase?
    requires Lifts(cp, lp) && FrameOk(lp, fr) && CanLift(fr, e)
    requires DefsIn(lp, LiftIn(fr, k, e).defs)
    ensures ORel(lp, Eval(cp, fuel, fr.env, e), LEval(lp, fuel, fr.tenv, LiftIn(fr, k, e).out))
    decreases fuel, 2, e, 0, 1
  {
    hide VRel, Lifts, FrameOk, LiftConAlts, AltKeys, LAltKeys, LiftExp;
    UnfoldConCase(fr, k, e);
    var re := Ren(fr.r, e);
    var s' := LiftIn(fr, k, e.scr);
    var alts' := LiftConAlts(fr.b, fr.vars, s'.next, re.conAlts);
    var d' := LiftOpt(fr.b, fr.vars, alts'.next, re.def);
    DefsInConcat(lp, d'.defs + alts'.defs, s'.defs);
    DefsInConcat(lp, d'.defs, alts'.defs);
    Sim(cp, lp, fuel, fr, k, e.scr);
    var x, v := Eval(cp, fuel, fr.env, e.scr), LEval(lp, fuel, fr.tenv, s'.out);
    if x.Value? {
      LiftedKeys(fr.b, fr.vars, s'.next, re.conAlts);
      RenKeys(fr.r, e);
      SamePick(lp, LAltKeys(alts'.out), e.conAlts, x.v, v.v);
      var pick := PickCon(e.conAlts, x.v);
      if pick.Some? {
        SimAlt(cp, lp, fuel, fr, s'.next, e, pick.value, x.v, v.v);
      } else if e.def.Some? {
        Sim(cp, lp, fuel, fr, alts'.next, e.def.value);
      }
    }
  }

  lemma RenKeys(r: Renaming, e: CExp)
    requires e.CConCase?
    ensures AltKeys(Ren(r, e).conAlts) == AltKeys(e.conAlts)
  {
  }

  lemma SimAlt(cp: CProg, lp: LProg, fuel: nat, fr: Frame, k: int, e: CExp, i: nat, x: CVal, v: Val)
    requires e.CConCase? && i < |e.conAlts|
    requires Lifts(cp, lp) && FrameOk(lp, fr) && CanLift(fr, e)
    requires x.CVCon? && v.VCon? && VRels(lp, x.args, v.args)
    requires DefsIn(lp, LiftConAlts(fr.b, fr.vars, k, Ren(fr.r, e).conAlts).defs)
    ensures var alt := LiftConAlts(fr.b, fr.vars, k, Ren(fr.r, e).conAlts).out[i];
            && alt.args == e.conAlts[i].args
            && (|alt.args| == |x.args| ==>
                  ORel(lp, Eval(cp, fuel, x.args + fr.env, e.conAlts[i].body),
                       LEval(lp, fuel, v.args + fr.tenv, alt.body)))
    decreases fuel, 2, e, 0, 0
  {
    hide VRel, Lifts, FrameOk, LiftConAlts, Eval, LEval, LiftExp;
    var alt := e.conAlts[i];
    var re := Ren(fr.r, e);
    var ki := LiftConAltAt(lp, fr.b, fr.vars, k, re.conAlts, i);
    if |alt.args| == |x.args| {
      ExtendOk(lp, fr, alt.args, x.args, v.args);
      Sim(cp, lp, fuel, Extend(fr, alt.args, x.args, v.args), ki, alt.body);
    }
  }

  lemma SimConstCase(cp: CProg, lp: LProg, fuel: nat, fr: Frame, k: int, e: CExp)
    requires e.CConstCase?
    requires Lifts(cp, lp) && FrameOk(lp, fr) && CanLift(fr, e)
    requires DefsIn(lp, LiftIn(fr, k, e).defs)
    ensures ORel(lp, Eval(cp, fuel, fr.env, e), LEval(lp, fuel, fr.tenv, LiftIn(fr, k, e).out))
    decreases fuel, 2, e, 0
  {
    hide VRel, Lifts, FrameOk, LiftConstAlts, LiftExp;
    UnfoldConstCase(fr, k, e);
    var re := Ren(fr.r, e);
    var s' := LiftIn(fr, k, e.scr);
    var alts' := LiftConstAlts(fr.b, fr.vars, s'.next, re.constAlts);
    var d' := LiftOpt(fr.b, fr.vars, alts'.next, re.def);
    DefsInConcat(lp, d'.defs + alts'.defs, s'.defs);
    DefsInConcat(lp, d'.defs, alts'.defs);
    Sim(cp, lp, fuel, fr, k, e.scr);
    var x, v := Eval(cp, fuel, fr.env, e.scr), LEval(lp, fuel, fr.tenv, s'.out);
    if x.Value? {
      LiftedConsts(fr.b, fr.vars, s'.next, re.constAlts);
      assert AltConsts(re.constAlts) == AltConsts(e.constAlts);
      SamePickConst(lp, LAltConsts(alts'.out), e.constAlts, x.v, v.v);
      var pick := PickConst(e.constAlts, x.v);
      if pick.Some? {
        var ki := LiftConstAltAt(lp, fr.b, fr.vars, s'.next, re.constAlts, pick.value);
        Sim(cp, lp, fuel, fr, ki, e.constAlts[pick.value].body);
      } else if e.def.Some? {
        Sim(cp, lp, fuel, fr, alts'.next, e.def.value);
      }
    }
  }

  /** Entering a represented body keeps outcomes related. */
  lemma EnterSim(cp: CProg, lp: LProg, fuel: nat, w: Wit, body: CExp, v: Val, env: seq<CVal>, a: Val)
    requires Lifts(cp, lp) && Represents(lp, w, body, v)
    requires EnvRel(lp, w.r, env, [a] + w.tenv)
    requires fuel > 0
    ensures ORel(lp, Eval(cp, fuel - 1, env, body), LApply(lp, fuel, v, a))
    decreases fuel, 0
  {
    hide VRel, Lifts, LCall, LEval, LiftExp;
    RepresentsPap(lp, w, body, v);
    if body.CLam? {
      EnterLambda(lp, w, body, v, env, a);
    } else {
      EnterBody(lp, fuel, w, body, v, a);
      var fr := Frame(w.b, w.bound + w.vars, w.r, env, [a] + w.tenv);
      assert Peel(|w.vars|, w.bound, Ren(w.r, body)) == (w.bound, Ren(w.r, body));
      hide Eval;
      Sim(cp, lp, fuel - 1, fr, w.k, body);
    }
  }

  lemma RepresentsPap(lp: LProg, w: Wit, body: CExp, v: Val)
    requires Represents(lp, w, body, v)
    ensures v.VPap? && v.missing > 0
  {
    hide LiftExp, UnusedIn, DropUnused, Dropped;
  }

  lemma EnvUnder(lp: LProg, w: Wit, env: seq<CVal>, a: CVal, a': Val)
    requires ViaOk(lp, w, 1, env) && VRel(lp, a, a')
    ensures EnvRel(lp, w.r, [a] + env, [a'] + w.tenv)
  {
    hide VRel;
    var cs, vs := [a] + env, [a'] + w.tenv;
    forall i | 0 <= i < |w.r| ensures w.r[i] < |vs| && VRel(lp, cs[i], vs[w.r[i]]) {
      if i > 0 { assert VRel(lp, env[i - 1], w.tenv[w.r[1 + (i - 1)] - 1]); }
    }
  }

  lemma EnvUnder'(lp: LProg, w: Wit, env: seq<CVal>, a: Val)
    requires ViaOk(lp, w, 0, env)
    ensures EnvRel(lp, w.r, env, [a] + w.tenv)
  {
    hide VRel;
    var vs := [a] + w.tenv;
    forall i | 0 <= i < |w.r| ensures w.r[i] < |vs| && VRel(lp, env[i], vs[w.r[i]]) {
      assert VRel(lp, env[i], w.tenv[w.r[0 + i] - 1]);
    }
  }

  lemma ApplySim(cp: CProg, lp: LProg, fuel: nat, g: CVal, g': Val, a: CVal, a': Val)
    requires Lifts(cp, lp) && VRel(lp, g, g') && VRel(lp, a, a')
    ensures ORel(lp, Apply(cp, fuel, g, a), LApply(lp, fuel, g', a'))
    decreases fuel, 1
  {
    hide Represents, Lifts, Eval, ViaOk, EnvRel;
    if g.CVClo? {
      var w :| Represents(lp, w, g.body, g') && ViaOk(lp, w, 1, g.env);
      hide VRel;
      RepresentsPap(lp, w, g.body, g');
      EnvUnder(lp, w, g.env, a, a');
      if fuel > 0 { EnterSim(cp, lp, fuel, w, g.body, g', [a] + g.env, a'); }
    }
  }

  lemma ForceSim(cp: CProg, lp: LProg, fuel: nat, g: CVal, g': Val)
    requires Lifts(cp, lp) && VRel(lp, g, g')
    ensures ORel(lp, Force(cp, fuel, g), LApply(lp, fuel, g', VErased))
    decreases fuel, 1
  {
    hide Represents, Lifts, Eval, ViaOk, EnvRel;
    if g.CVThunk? {
      var w :| Represents(lp, w, g.body, g') && ViaOk(lp, w, 0, g.env);
      hide VRel;
      RepresentsPap(lp, w, g.body, g');
      EnvUnder'(lp, w, g.env, VErased);
      if fuel > 0 { EnterSim(cp, lp, fuel, w, g.body, g', g.env, VErased); }
    }
  }

  /** Lambda lifting preserves meaning: a call of a source function and the call of
      its lifted form, on related arguments and the same fuel, end alike. */
  lemma CallSim(cp: CProg, lp: LProg, fuel: nat, n: Name, cs: seq<CVal>, vs: seq<Val>)
    requires Lifts(cp, lp) && VRels(lp, cs, vs)
    ensures ORel(lp, Call(cp, fuel, n, cs), LCall(lp, fuel, n, vs))
    decreases fuel, 1
  {
    if n in cp.defs {
      var d := cp.defs[n];
      var ls := LambdaLiftDef(n, d);
      assert ls[0].0 in lp.defs && lp.defs[ls[0].0] == ls[0].1;
      match d
      case MkFun(args, body) =>
        if |cs| == |args| && fuel > 0 {
          var l := LiftExp(n, args, 0, body);
          DefsInConcat(lp, [(n, MkLFun(args, [], l.out))], l.defs);
          RenIdentity(body, |args|);
          assert EntryEnv(|args|, vs) == vs;
          Sim(cp, lp, fuel - 1, Frame(n, args, Identity(|args|), cs, vs), 0, body);
        }
      case MkCon(_, _) =>
      case MkForeign(_) =>
      case MkError(expl) =>
        if fuel > 0 {
          var l := LiftExp(n, [], 0, expl);
          DefsInConcat(lp, [(n, MkLError(l.out))], l.defs);
          RenIdentity(expl, 0);
          Sim(cp, lp, fuel - 1, Frame(n, [], Identity(0), [], []), 0, expl);
        }
    }
  }
}

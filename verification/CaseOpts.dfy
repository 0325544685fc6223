/** Case-block transformations (Compiler/CaseOpts.idr): pulling a lambda out of all
    branches, and case-of-case. */
module CaseOpts {
  import opened Base
  import opened CExpSyntax

  // ----- Lifting out lambdas -----

  /** From scope `x, args.., rest` to `args.., x, rest`, where there are `k` args. */
  function ShiftUnder(k: nat, i: nat): nat {
    if i == 0 then k                        // weaken the moved variable past the args
    else if i - 1 < k then i - 1 else i     // insert it after them
  }

  function ShiftVar(outer: nat, k: nat, i: nat): nat {
    if i < outer then i else ShiftUnder(k, i - outer) + outer
  }

  function ShiftBinder(outer: nat, k: nat, e: CExp): CExp {
    Traverse(outer, (d: nat, i: nat) => CLocal(ShiftVar(d, k, i)), (d: nat, n) => CRef(n), e)
  }

  function LiftOutLambda(k: nat, e: CExp): CExp { ShiftBinder(0, k, e) }

  function TryLiftOut(alts: seq<CConAlt>): Option<seq<CConAlt>> {
    if alts == [] then Some([])
    else if alts[0].body.CLam? then
      var rest := TryLiftOut(alts[1..]);
      if rest.None? then None
      else Some([alts[0].(body := LiftOutLambda(|alts[0].args|, alts[0].body.body))] + rest.value)
    else None
  }

  function TryLiftOutConst(alts: seq<CConstAlt>): Option<seq<CConstAlt>> {
    if alts == [] then Some([])
    else if alts[0].body.CLam? then
      var rest := TryLiftOutConst(alts[1..]);
      if rest.None? then None
      else Some([alts[0].(body := LiftOutLambda(0, alts[0].body.body))] + rest.value)
    else None
  }

  function TryLiftDef(def: Option<CExp>): Option<Option<CExp>> {
    if def.None? then Some(None)
    else if def.value.CLam? then Some(Some(LiftOutLambda(0, def.value.body)))
    else None
  }

  predicate AllLams(alts: seq<CConAlt>) {
    alts == [] || (alts[0].body.CLam? && AllLams(alts[1..]))
  }

  predicate AllLamsConst(alts: seq<CConstAlt>) {
    alts == [] || (alts[0].body.CLam? && AllLamsConst(alts[1..]))
  }

  predicate DefLam(def: Option<CExp>) { def.None? || def.value.CLam? }

  // ----- Case of case -----

  function WeakenAlt(k: nat, alt: CConAlt): CConAlt {
    alt.(body := InsertNames(|alt.args|, k, alt.body))
  }

  function WeakenAlts(k: nat, alts: seq<CConAlt>): (r: seq<CConAlt>)
    ensures |r| == |alts|
  {
    seq(|alts|, i requires 0 <= i < |alts| => WeakenAlt(k, alts[i]))
  }

  function WeakenDef(k: nat, def: Option<CExp>): Option<CExp> {
    if def.Some? then Some(Weaken(k, def.value)) else None
  }

  /** An inner branch with the outer case around it. */
  function UpdateAlt(alts: seq<CConAlt>, def: Option<CExp>, xalt: CConAlt): CConAlt {
    var k := |xalt.args|;
    xalt.(body := CConCase(xalt.body, WeakenAlts(k, alts), WeakenDef(k, def)))
  }

  function DoCaseOfCase(x: CExp, xalts: seq<CConAlt>, xdef: Option<CExp>,
                        alts: seq<CConAlt>, def: Option<CExp>): CExp {
    CConCase(x, seq(|xalts|, i requires 0 <= i < |xalts| => UpdateAlt(alts, def, xalts[i])),
             if xdef.Some? then Some(CConCase(xdef.value, alts, def)) else None)
  }

  function DoCaseOfConstCase(x: CExp, xalts: seq<CConstAlt>, xdef: Option<CExp>,
                             alts: seq<CConstAlt>, def: Option<CExp>): CExp {
    CConstCase(x, seq(|xalts|, i requires 0 <= i < |xalts| =>
                        xalts[i].(body := CConstCase(xalts[i].body, alts, def))),
               if xdef.Some? then Some(CConstCase(xdef.value, alts, def)) else None)
  }

  /** To limit duplication: no branch, a single one, or only constructors. */
  predicate CanCaseOfCase(xs: seq<CConAlt>, def: Option<CExp>) {
    xs == [] || (|xs| == 1 && def.None?) ||
    ((forall i :: 0 <= i < |xs| ==> xs[i].body.CCon?) && (def.Some? ==> def.value.CCon?))
  }

  predicate CanCaseOfConstCase(xs: seq<CConstAlt>, def: Option<CExp>) {
    xs == [] || (|xs| == 1 && def.None?) ||
    ((forall i :: 0 <= i < |xs| ==> xs[i].body.CPrimVal?) && (def.Some? ==> def.value.CPrimVal?))
  }

  function TryCaseOfCase(e: CExp): Option<CExp> {
    if e.CConCase? && e.scr.CConCase? then
      if CanCaseOfCase(e.scr.conAlts, e.scr.def)
      then Some(DoCaseOfCase(e.scr.scr, e.scr.conAlts, e.scr.def, e.conAlts, e.def))
      else None
    else if e.CConstCase? && e.scr.CConstCase? then
      if CanCaseOfConstCase(e.scr.constAlts, e.scr.def)
      then Some(DoCaseOfConstCase(e.scr.scr, e.scr.constAlts, e.scr.def, e.constAlts, e.def))
      else None
    else None
  }

  function Go(k: nat, e: CExp): CExp {
    if k == 0 then e
    else
      var step := TryCaseOfCase(e);
      if step.None? then e else Go(k - 1, step.value)
  }

  function CaseOfCase(e: CExp): CExp { Go(5, e) }
}

module CaseOfCaseCorrect {
  import opened Base
  import opened CExpSyntax
  import opened CExpEval
  import opened RenamingCorrect
  import opened CaseOpts
  import L = LambdaLift

  lemma WeakenAltsScoped(k: nat, n: nat, alts: seq<CConAlt>, i: nat)
    requires i < |alts| && Scoped(alts[i].body, |alts[i].args| + n)
    ensures
      var a := alts[i];
      var ins := Insertion(|a.args|, k, |a.args| + n);
      WeakenAlts(k, alts)[i].body == Ren(ins, a.body) && Scoped(WeakenAlts(k, alts)[i].body, |a.args| + (k + n))
  {
    var a := alts[i];
    InsertNamesIsRen(|a.args|, k, |a.args| + n, a.body);
    RenScoped(Insertion(|a.args|, k, |a.args| + n), a.body, |a.args| + n + k);
  }

  lemma WeakenScoped(k: nat, n: nat, e: CExp)
    requires Scoped(e, n)
    ensures Weaken(k, e) == Ren(Insertion(0, k, n), e) && Scoped(Weaken(k, e), k + n)
  {
    InsertNamesIsRen(0, k, n, e);
    RenScoped(Insertion(0, k, n), e, n + k);
  }

  /** A weakened environment holds the same values further out. */
  lemma InsertionEnv(xs: seq<CVal>, ys: seq<CVal>, env: seq<CVal>)
    requires GoodEnv(xs) && GoodEnv(env)
    ensures SameEnv(Insertion(|xs|, |ys|, |xs| + |env|), xs + env, xs + (ys + env))
  {
    hide Same;
    var r := Insertion(|xs|, |ys|, |xs| + |env|);
    forall i | 0 <= i < |xs + env| ensures Same((xs + env)[i], (xs + (ys + env))[r[i]]) {
      if i < |xs| { assert Same(xs[i], xs[i]); } else { assert Same(env[i - |xs|], env[i - |xs|]); }
    }
  }

  /** Choosing a branch of the outer case: with the branches as they are, or weakened
      past variables `ys` bound in front. */
  lemma OuterCase(p: CProg, fuel: nat, env: seq<CVal>, ys: seq<CVal>, inner: CExp, scr: CExp,
                  alts: seq<CConAlt>, def: Option<CExp>)
    requires Proper(p) && GoodEnv(env) && Scoped(CConCase(scr, alts, def), |env|)
    requires Eval(p, fuel, ys + env, inner) == Eval(p, fuel, env, scr)
    ensures SameOutcome(Eval(p, fuel, env, CConCase(scr, alts, def)),
                        Eval(p, fuel, ys + env, CConCase(inner, WeakenAlts(|ys|, alts), WeakenDef(|ys|, def))))
  {
    hide Same, Proper, GoodEnv, WeakenAlts, InsertNames, Weaken;
    var o := Eval(p, fuel, env, scr);
    if o.Value? {
      EvalGood(p, fuel, env, scr);
      WeakenedHeads(|ys|, alts);
      SamePick(alts, WeakenAlts(|ys|, alts), o.v, o.v);
      var pick := PickCon(alts, o.v);
      if pick.Some? {
        GoodArgs(o.v);
        if |alts[pick.value].args| == |o.v.args| { OuterAlt(p, fuel, env, ys, alts, pick.value, o.v.args); }
      } else if def.Some? {
        OuterDef(p, fuel, env, ys, def.value);
      }
    }
  }

  lemma WeakenedHeads(k: nat, alts: seq<CConAlt>)
    ensures |WeakenAlts(k, alts)| == |alts|
    ensures forall i :: 0 <= i < |alts| ==>
      alts[i].con == WeakenAlts(k, alts)[i].con && alts[i].tag == WeakenAlts(k, alts)[i].tag &&
      alts[i].args == WeakenAlts(k, alts)[i].args
  {
  }

  lemma GoodArgs(v: CVal)
    requires Same(v, v) && v.CVCon?
    ensures GoodEnv(v.args)
  {
  }

  lemma OuterAlt(p: CProg, fuel: nat, env: seq<CVal>, ys: seq<CVal>, alts: seq<CConAlt>, i: nat, xs: seq<CVal>)
    requires Proper(p) && GoodEnv(env) && GoodEnv(xs) && i < |alts| && |xs| == |alts[i].args|
    requires Scoped(alts[i].body, |xs| + |env|)
    ensures SameOutcome(Eval(p, fuel, xs + env, alts[i].body),
                        Eval(p, fuel, xs + (ys + env), WeakenAlts(|ys|, alts)[i].body))
  {
    hide Same, Eval, Proper, GoodEnv;
    WeakenAltsScoped(|ys|, |env|, alts, i);
    InsertionEnv(xs, ys, env);
    hide WeakenAlts, Insertion, SameEnv, SameOutcome;
    RenEval(p, fuel, Insertion(|xs|, |ys|, |xs| + |env|), xs + env, xs + (ys + env), alts[i].body);
  }

  lemma OuterDef(p: CProg, fuel: nat, env: seq<CVal>, ys: seq<CVal>, d: CExp)
    requires Proper(p) && GoodEnv(env) && Scoped(d, |env|)
    ensures SameOutcome(Eval(p, fuel, env, d), Eval(p, fuel, ys + env, Weaken(|ys|, d)))
  {
    hide Same, Eval, Proper, Weaken, Insertion, SameEnv, SameOutcome, Scoped;
    WeakenScoped(|ys|, |env|, d);
    InsertionEnv([], ys, env);
    assert [] + env == env && [] + (ys + env) == ys + env;
    hide GoodEnv;
    RenEval(p, fuel, Insertion(0, |ys|, |env|), env, ys + env, d);
  }

  lemma ConStep(p: CProg, fuel: nat, env: seq<CVal>, x: CExp, xalts: seq<CConAlt>, xdef: Option<CExp>,
                alts: seq<CConAlt>, def: Option<CExp>)
    requires Proper(p) && GoodEnv(env) && Scoped(CConCase(CConCase(x, xalts, xdef), alts, def), |env|)
    ensures SameOutcome(Eval(p, fuel, env, CConCase(CConCase(x, xalts, xdef), alts, def)),
                        Eval(p, fuel, env, DoCaseOfCase(x, xalts, xdef, alts, def)))
  {
    var scr, res := CConCase(x, xalts, xdef), DoCaseOfCase(x, xalts, xdef, alts, def);
    var o := Eval(p, fuel, env, x);
    if o.Value? {
      assert AltKeys(xalts) == AltKeys(res.conAlts);
      var pick := PickCon(xalts, o.v);
      if pick.Some? {
        var xalt := xalts[pick.value];
        if |xalt.args| == |o.v.args| {
          OuterCase(p, fuel, env, o.v.args, xalt.body, scr, alts, def);
        } else {
          assert Eval(p, fuel, env, scr) == Stuck;
        }
      } else if xdef.Some? {
        var e := CConCase(xdef.value, alts, def);
        assert Eval(p, fuel, env, CConCase(scr, alts, def)) == Eval(p, fuel, env, e);
        EvalGood(p, fuel, env, e);
      } else {
        assert Eval(p, fuel, env, scr) == Stuck;
      }
    } else {
      assert Eval(p, fuel, env, scr).IsFailure();
    }
  }

  lemma {:induction false} ConstStep(p: CProg, fuel: nat, env: seq<CVal>, x: CExp, xalts: seq<CConstAlt>, xdef: Option<CExp>,
                  alts: seq<CConstAlt>, def: Option<CExp>)
    ensures Eval(p, fuel, env, CConstCase(CConstCase(x, xalts, xdef), alts, def)) ==
            Eval(p, fuel, env, DoCaseOfConstCase(x, xalts, xdef, alts, def))
  {
    var res := DoCaseOfConstCase(x, xalts, xdef, alts, def);
    assert AltConsts(xalts) == AltConsts(res.constAlts);
  }

  lemma CasesScoped(n: nat, x: CExp, ys: seq<CConAlt>, ydef: Option<CExp>)
    ensures Scoped(CConCase(x, ys, ydef), n) <==>
            && Scoped(x, n) && (ydef.Some? ==> Scoped(ydef.value, n))
            && forall i :: 0 <= i < |ys| ==> Scoped(ys[i].body, |ys[i].args| + n)
  {
  }

  lemma ConStepScoped(n: nat, x: CExp, xalts: seq<CConAlt>, xdef: Option<CExp>,
                      alts: seq<CConAlt>, def: Option<CExp>)
    requires Scoped(CConCase(CConCase(x, xalts, xdef), alts, def), n)
    ensures Scoped(DoCaseOfCase(x, xalts, xdef, alts, def), n)
  {
    hide Scoped, UpdateAlt;
    CasesScoped(n, CConCase(x, xalts, xdef), alts, def);
    CasesScoped(n, x, xalts, xdef);
    forall i | 0 <= i < |xalts|
      ensures var y := UpdateAlt(alts, def, xalts[i]); y.args == xalts[i].args && Scoped(y.body, |y.args| + n)
    {
      UpdateAltScoped(n, alts, def, xalts[i]);
    }
    if xdef.Some? { CasesScoped(n, xdef.value, alts, def); }
    var r := DoCaseOfCase(x, xalts, xdef, alts, def);
    CasesScoped(n, x, r.conAlts, r.def);
  }

  lemma UpdateAltScoped(n: nat, alts: seq<CConAlt>, def: Option<CExp>, xalt: CConAlt)
    requires Scoped(xalt.body, |xalt.args| + n) && (def.Some? ==> Scoped(def.value, n))
    requires forall j :: 0 <= j < |alts| ==> Scoped(alts[j].body, |alts[j].args| + n)
    ensures UpdateAlt(alts, def, xalt).args == xalt.args && Scoped(UpdateAlt(alts, def, xalt).body, |xalt.args| + n)
  {
    var k := |xalt.args|;
    forall j | 0 <= j < |alts| ensures Scoped(WeakenAlts(k, alts)[j].body, |alts[j].args| + (k + n)) {
      WeakenAltsScoped(k, n, alts, j);
    }
    if def.Some? { WeakenScoped(k, n, def.value); }
    hide InsertNames, Weaken;
  }

  lemma ConstStepScoped(n: nat, x: CExp, xalts: seq<CConstAlt>, xdef: Option<CExp>,
                        alts: seq<CConstAlt>, def: Option<CExp>)
    requires Scoped(CConstCase(CConstCase(x, xalts, xdef), alts, def), n)
    ensures Scoped(DoCaseOfConstCase(x, xalts, xdef, alts, def), n)
  {
    var e := CConstCase(x, xalts, xdef);
    assert Scoped(e, n);
    forall i | 0 <= i < |xalts| ensures Scoped(CConstCase(xalts[i].body, alts, def), n) { }
    if xdef.Some? { assert Scoped(CConstCase(xdef.value, alts, def), n); }
  }

  lemma StepSame(p: CProg, fuel: nat, env: seq<CVal>, e: CExp)
    requires Proper(p) && GoodEnv(env) && Scoped(e, |env|) && TryCaseOfCase(e).Some?
    ensures Scoped(TryCaseOfCase(e).value, |env|)
    ensures SameOutcome(Eval(p, fuel, env, e), Eval(p, fuel, env, TryCaseOfCase(e).value))
  {
    hide Eval, Proper, GoodEnv, SameOutcome, Scoped;
    if e.CConCase? {
      ConStep(p, fuel, env, e.scr.scr, e.scr.conAlts, e.scr.def, e.conAlts, e.def);
      ConStepScoped(|env|, e.scr.scr, e.scr.conAlts, e.scr.def, e.conAlts, e.def);
    } else {
      ConstStep(p, fuel, env, e.scr.scr, e.scr.constAlts, e.scr.def, e.constAlts, e.def);
      ConstStepScoped(|env|, e.scr.scr, e.scr.constAlts, e.scr.def, e.constAlts, e.def);
      EvalGood(p, fuel, env, e);
    }
  }

  lemma {:induction false} GoSame(p: CProg, fuel: nat, env: seq<CVal>, k: nat, e: CExp)
    requires Proper(p) && GoodEnv(env) && Scoped(e, |env|)
    ensures Scoped(Go(k, e), |env|)
    ensures SameOutcome(Eval(p, fuel, env, e), Eval(p, fuel, env, Go(k, e)))
    decreases k
  {
    hide Eval, Proper, GoodEnv, SameOutcome, TryCaseOfCase, Scoped;
    EvalGood(p, fuel, env, e);
    if k > 0 && TryCaseOfCase(e).Some? {
      var e' := TryCaseOfCase(e).value;
      StepSame(p, fuel, env, e);
      GoSame(p, fuel, env, k - 1, e');
      SameOutcomeTrans(Eval(p, fuel, env, e), Eval(p, fuel, env, e'), Eval(p, fuel, env, Go(k, e)));
    }
  }

  /** `caseOfCase` leaves every outcome as it was, with the same fuel: values up to
      renamed closures, crashes, running out of fuel, and finding no branch. */
  lemma CaseOfCaseSame(p: CProg, fuel: nat, env: seq<CVal>, e: CExp)
    requires Proper(p) && GoodEnv(env) && Scoped(e, |env|)
    ensures Scoped(CaseOfCase(e), |env|)
    ensures SameOutcome(Eval(p, fuel, env, e), Eval(p, fuel, env, CaseOfCase(e)))
  {
    GoSame(p, fuel, env, 5, e);
  }

  // ----- When a step is taken -----

  /** A block whose scrutinee is a block of the same kind. */
  predicate CaseInCase(e: CExp) { (e.CConCase? && e.scr.CConCase?) || (e.CConstCase? && e.scr.CConstCase?) }

  /** How many copies of the outer block a step would make. */
  function Copies(e: CExp): nat
    requires CaseInCase(e)
  {
    (if e.CConCase? then |e.scr.conAlts| else |e.scr.constAlts|) + if e.scr.def.Some? then 1 else 0
  }

  predicate KnownValue(e: CExp, x: CExp) { if e.CConCase? then x.CCon? else x.CPrimVal? }

  /** Whatever the inner block comes to, its head is known. */
  predicate AllKnown(e: CExp)
    requires CaseInCase(e)
  {
    && (e.CConCase? ==> forall i :: 0 <= i < |e.scr.conAlts| ==> KnownValue(e, e.scr.conAlts[i].body))
    && (e.CConstCase? ==> forall i :: 0 <= i < |e.scr.constAlts| ==> KnownValue(e, e.scr.constAlts[i].body))
    && (e.scr.def.Some? ==> KnownValue(e, e.scr.def.value))
  }

  /** A step is taken exactly when it copies the outer block at most once, or every copy
      will know which branch to take. */
  lemma StepIff(e: CExp)
    ensures TryCaseOfCase(e).Some? <==> CaseInCase(e) && (Copies(e) <= 1 || AllKnown(e))
  {
    if CaseInCase(e) && Copies(e) <= 1 && e.scr.def.Some? {
      if e.CConCase? { assert e.scr.conAlts == []; } else { assert e.scr.constAlts == []; }
    }
    if CaseInCase(e) && Copies(e) == 0 {
      if e.CConCase? { assert e.scr.conAlts == []; } else { assert e.scr.constAlts == []; }
    }
  }

  lemma {:induction false} WeakenAltsSize(k: nat, n: nat, alts: seq<CConAlt>, bs: seq<CConAlt>)
    requires |bs| == |alts| && forall i :: 0 <= i < |alts| ==> Scoped(alts[i].body, |alts[i].args| + n) && bs[i] == WeakenAlt(k, alts[i])
    ensures L.SizeConAlts(bs) == L.SizeConAlts(alts)
    decreases |alts|
  {
    hide InsertNames, Scoped, L.Size;
    if alts != [] {
      var a := alts[0];
      InsertNamesIsRen(|a.args|, k, |a.args| + n, a.body);
      L.RenSize(Insertion(|a.args|, k, |a.args| + n), a.body);
      WeakenAltsSize(k, n, alts[1..], bs[1..]);
    }
  }

  lemma WeakenedSize(k: nat, n: nat, alts: seq<CConAlt>)
    requires forall i :: 0 <= i < |alts| ==> Scoped(alts[i].body, |alts[i].args| + n)
    ensures L.SizeConAlts(WeakenAlts(k, alts)) == L.SizeConAlts(alts)
  {
    hide Scoped, L.SizeConAlts, InsertNames;
    WeakenAltsSize(k, n, alts, WeakenAlts(k, alts));
  }

  lemma WeakenDefSize(k: nat, n: nat, def: Option<CExp>)
    requires def.Some? ==> Scoped(def.value, n)
    ensures WeakenDef(k, def).Some? <==> def.Some?
    ensures def.Some? ==> L.Size(WeakenDef(k, def).value) == L.Size(def.value)
  {
    if def.Some? {
      InsertNamesIsRen(0, k, n, def.value);
      L.RenSize(Insertion(0, k, n), def.value);
    }
  }

  lemma OneConAlt(a: CConAlt)
    ensures L.SizeConAlts([a]) == 1 + L.Size(a.body)
  {
    assert [a][1..] == [];
  }

  lemma OneConstAlt(a: CConstAlt)
    ensures L.SizeConstAlts([a]) == 1 + L.Size(a.body)
  {
    assert [a][1..] == [];
  }

  lemma ConNoLarger(x: CExp, xs: seq<CConAlt>, xdef: Option<CExp>, alts: seq<CConAlt>, def: Option<CExp>, n: nat)
    requires |xs| + (if xdef.Some? then 1 else 0) <= 1
    requires Scoped(CConCase(CConCase(x, xs, xdef), alts, def), n)
    ensures L.Size(DoCaseOfCase(x, xs, xdef, alts, def)) <= L.Size(CConCase(CConCase(x, xs, xdef), alts, def))
  {
    hide WeakenAlts, WeakenDef, L.SizeConAlts, UpdateAlt;
    if |xs| == 1 {
      OneNoLarger(x, xs[0], alts, def, n);
      assert xs == [xs[0]] && DoCaseOfCase(x, xs, xdef, alts, def) == CConCase(x, [UpdateAlt(alts, def, xs[0])], None);
    } else {
      assert DoCaseOfCase(x, xs, xdef, alts, def).conAlts == [] && xs == [];
    }
  }

  lemma OneNoLarger(x: CExp, a: CConAlt, alts: seq<CConAlt>, def: Option<CExp>, n: nat)
    requires Scoped(CConCase(CConCase(x, [a], None), alts, def), n)
    ensures L.Size(CConCase(x, [UpdateAlt(alts, def, a)], None)) == L.Size(CConCase(CConCase(x, [a], None), alts, def))
  {
    var k, y := |a.args|, UpdateAlt(alts, def, a);
    assert forall i :: 0 <= i < |alts| ==> Scoped(alts[i].body, |alts[i].args| + n);
    assert def.Some? ==> Scoped(def.value, n);
    hide WeakenAlts, WeakenDef, Scoped, L.SizeConAlts;
    WeakenedSize(k, n, alts);
    WeakenDefSize(k, n, def);
    OuterSize(a.body, alts, def, WeakenAlts(k, alts), WeakenDef(k, def));
    OneConAlt(a);
    OneConAlt(y);
    OneSizes(x, a, y, alts, def);
  }

  lemma OneSizes(x: CExp, a: CConAlt, y: CConAlt, alts: seq<CConAlt>, def: Option<CExp>)
    requires L.SizeConAlts([a]) == 1 + L.Size(a.body) && L.SizeConAlts([y]) == 1 + L.Size(y.body)
    requires L.Size(y.body) == L.Size(CConCase(a.body, alts, def))
    ensures L.Size(CConCase(x, [y], None)) == L.Size(CConCase(CConCase(x, [a], None), alts, def))
  {
    hide L.SizeConAlts;
  }

  lemma OuterSize(b: CExp, alts: seq<CConAlt>, def: Option<CExp>, alts': seq<CConAlt>, def': Option<CExp>)
    requires L.SizeConAlts(alts') == L.SizeConAlts(alts)
    requires (def'.Some? <==> def.Some?) && (def.Some? ==> L.Size(def'.value) == L.Size(def.value))
    ensures L.Size(CConCase(b, alts', def')) == L.Size(CConCase(b, alts, def))
  {
  }

  lemma ConstNoLarger(x: CExp, xs: seq<CConstAlt>, xdef: Option<CExp>, alts: seq<CConstAlt>, def: Option<CExp>)
    requires |xs| + (if xdef.Some? then 1 else 0) <= 1
    ensures L.Size(DoCaseOfConstCase(x, xs, xdef, alts, def)) <= L.Size(CConstCase(CConstCase(x, xs, xdef), alts, def))
  {
    if |xs| == 1 {
      hide L.SizeConstAlts;
      var y := xs[0].(body := CConstCase(xs[0].body, alts, def));
      assert xs == [xs[0]] && DoCaseOfConstCase(x, xs, xdef, alts, def) == CConstCase(x, [y], None);
      OneConstAlt(xs[0]);
      OneConstAlt(y);
    } else {
      assert DoCaseOfConstCase(x, xs, xdef, alts, def).constAlts == [] && xs == [];
    }
  }

  /** A step that copies the outer block at most once makes no term larger. */
  lemma StepNoLarger(e: CExp, n: nat)
    requires Scoped(e, n) && CaseInCase(e) && Copies(e) <= 1
    ensures TryCaseOfCase(e).Some? && L.Size(TryCaseOfCase(e).value) <= L.Size(e)
  {
    hide Scoped, L.Size, DoCaseOfCase, DoCaseOfConstCase;
    StepIff(e);
    if e.CConCase? {
      ConNoLarger(e.scr.scr, e.scr.conAlts, e.scr.def, e.conAlts, e.def, n);
    } else {
      ConstNoLarger(e.scr.scr, e.scr.constAlts, e.scr.def, e.constAlts, e.def);
    }
  }

  // ----- The rounds flatten -----

  /** How many case blocks of the same kind are nested in the scrutinee. */
  function Nesting(e: CExp): nat {
    if (e.CConCase? && e.scr.CConCase?) || (e.CConstCase? && e.scr.CConstCase?) then 1 + Nesting(e.scr) else 0
  }

  /** Every round removes one level, and rounds end early only where the code for the
      inner block would be duplicated or there is nothing left to flatten. */
  lemma {:induction false} GoFlattens(k: nat, e: CExp)
    ensures TryCaseOfCase(Go(k, e)).None? || Nesting(e) == Nesting(Go(k, e)) + k
    ensures Nesting(Go(k, e)) <= Nesting(e) <= Nesting(Go(k, e)) + k
    decreases k
  {
    if k > 0 && TryCaseOfCase(e).Some? { GoFlattens(k - 1, TryCaseOfCase(e).value); }
  }

  /** With at most five levels the result has no block left that a step could take. */
  lemma CaseOfCaseFlattens(e: CExp)
    requires Nesting(e) <= 5
    ensures var r := CaseOfCase(e); TryCaseOfCase(r).None? && (CaseInCase(r) ==> Copies(r) > 1 && !AllKnown(r))
  {
    GoFlattens(5, e);
    StepIff(CaseOfCase(e));
  }
}

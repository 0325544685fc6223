/** Pulling a shared lambda out of a case block preserves what the block does when
    it is applied (Compiler/CaseOpts.idr). */
module CaseLamCorrect {
  import opened Base
  import opened CExpSyntax
  import opened CExpEval
  import opened CExpFuel
  import opened RenamingCorrect
  import opened CaseOpts
  import opened CaseOfCaseCorrect

  // ----- Moving a binder is a permutation -----

  /** The index permutation taking scope `x, args.., rest` to `args.., x, rest`. */
  function Moved(k: nat, n: nat): (r: Renaming)
    ensures |r| == 1 + k + n && Into(r, 1 + k + n)
  {
    seq(1 + k + n, i => if i == 0 then k else if i <= k then i - 1 else i)
  }

  /** Looking up a moved index finds what the index found before the move. */
  lemma MovedLookup<T>(x: T, args: seq<T>, rest: seq<T>, i: nat)
    requires i < 1 + |args| + |rest|
    ensures (args + ([x] + rest))[Moved(|args|, |rest|)[i]] == ([x] + (args + rest))[i]
  {
  }

  lemma ShiftRenames(outer: nat, k: nat, n: nat)
    ensures Renames(outer, (d: nat, i: nat) => CLocal(ShiftVar(d, k, i)), Up(outer, Moved(k, n)))
  {
    var lv := (d: nat, i: nat) => CLocal(ShiftVar(d, k, i));
    var r := Up(outer, Moved(k, n));
    forall m: nat, i: nat | i < m + |r| ensures lv(outer + m, i) == CLocal(Up(m, r)[i]) {
      if m <= i && outer <= i - m { assert r[i - m] == Moved(k, n)[i - m - outer] + outer; }
    }
  }

  /** `shiftBinder` is exactly that permutation under `outer` binders, so leaving the
      index alone when the variable is renamed is right. */
  lemma ShiftBinderIsMove(outer: nat, k: nat, n: nat, e: CExp)
    requires Scoped(e, outer + (1 + k + n))
    ensures ShiftBinder(outer, k, e) == Ren(Up(outer, Moved(k, n)), e)
    ensures Scoped(ShiftBinder(outer, k, e), outer + (1 + k + n))
  {
    ShiftRenames(outer, k, n);
    TraverseIsRen(outer, (d: nat, i: nat) => CLocal(ShiftVar(d, k, i)), (d: nat, n) => CRef(n), Up(outer, Moved(k, n)), e);
    RenScoped(Up(outer, Moved(k, n)), e, outer + (1 + k + n));
  }

  lemma LiftOutIsMove(k: nat, n: nat, e: CExp)
    requires Scoped(e, 1 + k + n)
    ensures LiftOutLambda(k, e) == Ren(Moved(k, n), e) && Scoped(LiftOutLambda(k, e), k + (1 + n))
  {
    ShiftBinderIsMove(0, k, n, e);
    assert Up(0, Moved(k, n)) == Moved(k, n);
  }

  // ----- The attempts succeed exactly when the quick check does -----

  lemma {:induction false} LiftOutIff(alts: seq<CConAlt>)
    ensures TryLiftOut(alts).Some? <==> AllLams(alts)
    ensures AllLams(alts) <==> forall i :: 0 <= i < |alts| ==> alts[i].body.CLam?
    ensures TryLiftOut(alts).Some? ==>
      |TryLiftOut(alts).value| == |alts| &&
      forall i :: 0 <= i < |alts| ==>
        TryLiftOut(alts).value[i] == alts[i].(body := LiftOutLambda(|alts[i].args|, alts[i].body.body))
  {
    if alts != [] {
      LiftOutIff(alts[1..]);
      assert alts == [alts[0]] + alts[1..];
    }
  }

  lemma {:induction false} LiftOutConstIff(alts: seq<CConstAlt>)
    ensures TryLiftOutConst(alts).Some? <==> AllLamsConst(alts)
    ensures AllLamsConst(alts) <==> forall i :: 0 <= i < |alts| ==> alts[i].body.CLam?
    ensures TryLiftOutConst(alts).Some? ==>
      |TryLiftOutConst(alts).value| == |alts| &&
      forall i :: 0 <= i < |alts| ==>
        TryLiftOutConst(alts).value[i] == alts[i].(body := LiftOutLambda(0, alts[i].body.body))
  {
    if alts != [] {
      LiftOutConstIff(alts[1..]);
      assert alts == [alts[0]] + alts[1..];
    }
  }

  // ----- The lifting step -----

  datatype Step = Lambda(e: CExp) | Unchanged | InternalError(msg: string)

  function LiftCase(x: Name, e: CExp): Step {
    if e.CConCase? && AllLams(e.conAlts) && DefLam(e.def) then
      var alts := TryLiftOut(e.conAlts);
      if alts.None? then InternalError("Can't happen caseLam 1") else
      var def := TryLiftDef(e.def);
      if def.None? then InternalError("Can't happen caseLam 2")
      else Lambda(CLam(x, CConCase(Weaken(1, e.scr), alts.value, def.value)))
    else if e.CConstCase? && AllLamsConst(e.constAlts) && DefLam(e.def) then
      var alts := TryLiftOutConst(e.constAlts);
      if alts.None? then InternalError("Can't happen caseLam 1") else
      var def := TryLiftDef(e.def);
      if def.None? then InternalError("Can't happen caseLam 2")
      else Lambda(CLam(x, CConstCase(Weaken(1, e.scr), alts.value, def.value)))
    else Unchanged
  }

  /** The step lifts a lambda exactly when every branch and the default is one; it
      never reaches an internal error. */
  lemma NoInternalError(x: Name, e: CExp)
    ensures !LiftCase(x, e).InternalError?
    ensures LiftCase(x, e).Lambda? <==>
            (e.CConCase? && (forall i :: 0 <= i < |e.conAlts| ==> e.conAlts[i].body.CLam?) && (e.def.Some? ==> e.def.value.CLam?)) ||
            (e.CConstCase? && (forall i :: 0 <= i < |e.constAlts| ==> e.constAlts[i].body.CLam?) && (e.def.Some? ==> e.def.value.CLam?))
  {
    if e.CConCase? { LiftOutIff(e.conAlts); }
    if e.CConstCase? { LiftOutConstIff(e.constAlts); }
  }

  /** Evaluate a term and apply the result to a value. */
  ghost function ApplyTo(p: CProg, fuel: nat, env: seq<CVal>, e: CExp, v: CVal): Outcome<CVal> {
    var g :- Eval(p, fuel, env, e);
    Apply(p, fuel, g, v)
  }

  /** A case block whose every branch is a lambda. */
  predicate Liftable(e: CExp) {
    (e.CConCase? && AllLams(e.conAlts) && DefLam(e.def)) ||
    (e.CConstCase? && AllLamsConst(e.constAlts) && DefLam(e.def))
  }

  /** `n` is the block that runs under the lambda lifted out of `e`. */
  predicate LiftsTo(e: CExp, n: CExp) {
    Liftable(e) && (n.CConCase? || n.CConstCase?) && TryLiftDef(e.def) == Some(n.def) && n.scr == Weaken(1, e.scr) &&
    if e.CConCase? then
      n.CConCase? && |n.conAlts| == |e.conAlts| && forall i :: 0 <= i < |e.conAlts| ==>
        e.conAlts[i].body.CLam? &&
        n.conAlts[i] == e.conAlts[i].(body := LiftOutLambda(|e.conAlts[i].args|, e.conAlts[i].body.body))
    else
      n.CConstCase? && |n.constAlts| == |e.constAlts| && forall i :: 0 <= i < |e.constAlts| ==>
        e.constAlts[i].body.CLam? &&
        n.constAlts[i] == e.constAlts[i].(body := LiftOutLambda(0, e.constAlts[i].body.body))
  }

  lemma LiftCaseShape(x: Name, e: CExp) returns (n: CExp)
    requires LiftCase(x, e).Lambda?
    ensures LiftCase(x, e).e == CLam(x, n) && LiftsTo(e, n)
  {
    n := LiftCase(x, e).e.body;
    if e.CConCase? { LiftOutIff(e.conAlts); } else { LiftOutConstIff(e.constAlts); }
  }

  // The branch that an original and a lifted block take, once the scrutinee is known.

  ghost function OldAlt(p: CProg, fuel: nat, env: seq<CVal>, alt: CConAlt, xs: seq<CVal>, v: CVal): Outcome<CVal>
    requires alt.body.CLam?
  {
    if |alt.args| == |xs| then Eval(p, fuel, [v] + (xs + env), alt.body.body) else Stuck
  }

  ghost function NewAlt(p: CProg, fuel: nat, env: seq<CVal>, alt: CConAlt, xs: seq<CVal>): Outcome<CVal> {
    if |alt.args| == |xs| then Eval(p, fuel, xs + env, alt.body) else Stuck
  }

  ghost function OldBranch(p: CProg, fuel: nat, env: seq<CVal>, e: CExp, x: CVal, v: CVal): Outcome<CVal>
    requires Liftable(e)
  {
    if e.CConCase? then
      LiftOutIff(e.conAlts);
      var pick := PickCon(e.conAlts, x);
      if pick.Some? then
        OldAlt(p, fuel, env, e.conAlts[pick.value], x.args, v)
      else if e.def.Some? then Eval(p, fuel, [v] + env, e.def.value.body) else Stuck
    else
      LiftOutConstIff(e.constAlts);
      var pick := PickConst(e.constAlts, x);
      if pick.Some? then Eval(p, fuel, [v] + env, e.constAlts[pick.value].body.body)
      else if e.def.Some? then Eval(p, fuel, [v] + env, e.def.value.body) else Stuck
  }

  ghost function NewBranch(p: CProg, fuel: nat, env: seq<CVal>, e: CExp, x: CVal): Outcome<CVal>
    requires e.CConCase? || e.CConstCase?
  {
    if e.CConCase? then
      var pick := PickCon(e.conAlts, x);
      if pick.Some? then
        NewAlt(p, fuel, env, e.conAlts[pick.value], x.args)
      else if e.def.Some? then Eval(p, fuel, env, e.def.value) else Stuck
    else
      var pick := PickConst(e.constAlts, x);
      if pick.Some? then Eval(p, fuel, env, e.constAlts[pick.value].body)
      else if e.def.Some? then Eval(p, fuel, env, e.def.value) else Stuck
  }

  predicate HasBranch(e: CExp, x: CVal)
    requires Liftable(e)
  {
    if e.CConCase? then
      var pick := PickCon(e.conAlts, x);
      if pick.Some? then |e.conAlts[pick.value].args| == |x.args| else e.def.Some?
    else PickConst(e.constAlts, x).Some? || e.def.Some?
  }

  /** What applying the original block comes to. */
  ghost function OldRun(p: CProg, fuel: nat, env: seq<CVal>, e: CExp, v: CVal): Outcome<CVal>
    requires Liftable(e)
  {
    var x :- Eval(p, fuel, env, e.scr);
    if fuel > 0 then OldBranch(p, fuel - 1, env, e, x, v)
    else if HasBranch(e, x) then Timeout else Stuck
  }

  ghost function NewRun(p: CProg, fuel: nat, env: seq<CVal>, e: CExp): Outcome<CVal>
    requires e.CConCase? || e.CConstCase?
  {
    var x :- Eval(p, fuel, env, e.scr);
    NewBranch(p, fuel, env, e, x)
  }

  lemma LamApply(p: CProg, fuel: nat, env: seq<CVal>, e: CExp, v: CVal)
    requires e.CLam?
    ensures ApplyTo(p, fuel, env, e, v) == if fuel == 0 then Timeout else Eval(p, fuel - 1, [v] + env, e.body)
  {
  }

  lemma OldUnfold(p: CProg, fuel: nat, env: seq<CVal>, e: CExp, v: CVal)
    requires Liftable(e)
    ensures ApplyTo(p, fuel, env, e, v) == OldRun(p, fuel, env, e, v)
  {
    var o := Eval(p, fuel, env, e.scr);
    if o.Value? {
      if e.CConCase? {
        LiftOutIff(e.conAlts);
        var pick := PickCon(e.conAlts, o.v);
        if pick.Some? {
          var alt := e.conAlts[pick.value];
          if |alt.args| == |o.v.args| { LamApply(p, fuel, o.v.args + env, alt.body, v); }
        } else if e.def.Some? {
          LamApply(p, fuel, env, e.def.value, v);
        }
      } else {
        LiftOutConstIff(e.constAlts);
        var pick := PickConst(e.constAlts, o.v);
        if pick.Some? {
          LamApply(p, fuel, env, e.constAlts[pick.value].body, v);
        } else if e.def.Some? {
          LamApply(p, fuel, env, e.def.value, v);
        }
      }
    }
  }

  lemma NewUnfold(p: CProg, fuel: nat, env: seq<CVal>, x: Name, e: CExp, v: CVal)
    requires e.CConCase? || e.CConstCase?
    ensures ApplyTo(p, fuel, env, CLam(x, e), v) == if fuel == 0 then Timeout else NewRun(p, fuel - 1, [v] + env, e)
  {
    LamApply(p, fuel, env, CLam(x, e), v);
  }

  // ----- The branches agree -----

  lemma MovedSameEnv(env: seq<CVal>, xs: seq<CVal>, ys: seq<CVal>, v: CVal)
    requires GoodEnv(env) && SameAll(xs, ys) && Same(v, v)
    ensures SameEnv(Moved(|xs|, |env|), [v] + (xs + env), ys + ([v] + env))
  {
    hide Same;
    var old', new' := [v] + (xs + env), ys + ([v] + env);
    var r := Moved(|xs|, |env|);
    forall i | 0 <= i < |old'| ensures Same(old'[i], new'[r[i]]) {
      if 1 <= i <= |xs| { assert Same(xs[i - 1], ys[i - 1]); }
      else if i > |xs| { assert Same(env[i - 1 - |xs|], env[i - 1 - |xs|]); }
    }
  }

  /** The body a lifted branch runs is the original one with its binder moved. */
  lemma MovedEval(p: CProg, fuel: nat, env: seq<CVal>, xs: seq<CVal>, ys: seq<CVal>, v: CVal, b: CExp)
    requires Proper(p) && GoodEnv(env) && SameAll(xs, ys) && Same(v, v) && Scoped(b, 1 + |xs| + |env|)
    ensures SameOutcome(Eval(p, fuel, [v] + (xs + env), b),
                        Eval(p, fuel, ys + ([v] + env), LiftOutLambda(|xs|, b)))
  {
    hide Same, Moved, LiftOutLambda, SameEnv, SameOutcome, SameAll, Proper, Eval, Ren;
    LiftOutIsMove(|xs|, |env|, b);
    MovedSameEnv(env, xs, ys, v);
    RenEval(p, fuel, Moved(|xs|, |env|), [v] + (xs + env), ys + ([v] + env), b);
  }

  lemma NoArgs(env: seq<CVal>, v: CVal)
    ensures [] + env == env && [] + ([v] + env) == [v] + env
  {
  }

  /** Without constructor arguments nothing moves. */
  lemma PlainEval(p: CProg, fuel: nat, env: seq<CVal>, v: CVal, b: CExp)
    requires Proper(p) && GoodEnv(env) && Same(v, v) && Scoped(b, 1 + |env|)
    ensures SameOutcome(Eval(p, fuel, [v] + env, b), Eval(p, fuel, [v] + env, LiftOutLambda(0, b)))
  {
    NoArgs(env, v);
    hide Same, LiftOutLambda, Eval, Proper;
    MovedEval(p, fuel, env, [], [], v, b);
  }

  lemma SameArgs(s: CVal, t: CVal)
    requires Same(s, t)
    ensures s.CVCon? ==> t.CVCon? && t.key == s.key && SameAll(s.args, t.args)
  {
  }

  lemma ChosenSame(p: CProg, fuel: nat, env: seq<CVal>, alt: CConAlt, alt': CConAlt, s: CVal, t: CVal, v: CVal)
    requires Proper(p) && GoodEnv(env) && Same(v, v) && s.CVCon? && t.CVCon? && SameAll(s.args, t.args)
    requires alt.body.CLam? && Scoped(alt.body, |alt.args| + |env|)
    requires alt' == alt.(body := LiftOutLambda(|alt.args|, alt.body.body))
    ensures SameOutcome(OldAlt(p, fuel, env, alt, s.args, v), NewAlt(p, fuel, [v] + env, alt', t.args))
  {
    hide Same, Eval, LiftOutLambda, Proper;
    if |alt.args| == |s.args| { MovedEval(p, fuel, env, s.args, t.args, v, alt.body.body); }
  }

  lemma StuckSame()
    ensures SameOutcome(Stuck, Stuck)
  {
  }

  lemma LiftedAlt(e: CExp, n: CExp, i: nat, k: nat)
    requires LiftsTo(e, n) && e.CConCase? && Scoped(e, k) && i < |e.conAlts|
    ensures n.CConCase? && |n.conAlts| == |e.conAlts| && e.conAlts[i].body.CLam?
    ensures n.conAlts[i] == e.conAlts[i].(body := LiftOutLambda(|e.conAlts[i].args|, e.conAlts[i].body.body))
    ensures Scoped(e.conAlts[i].body, |e.conAlts[i].args| + k)
  {
  }

  lemma ConBranchSame(p: CProg, fuel: nat, env: seq<CVal>, e: CExp, n: CExp, s: CVal, t: CVal, v: CVal)
    requires Proper(p) && GoodEnv(env) && Same(v, v) && Same(s, t) && Scoped(e, |env|)
    requires LiftsTo(e, n) && e.CConCase?
    ensures SameOutcome(OldBranch(p, fuel, env, e, s, v), NewBranch(p, fuel, [v] + env, n, t))
  {
    StuckSame();
    hide Same, Eval, TryLiftOut, AllLams, LiftOutLambda, Proper, SameOutcome, SameAll, PickCon, OldAlt, NewAlt;
    SameArgs(s, t);
    SamePick(e.conAlts, n.conAlts, s, t);
    var pick := PickCon(e.conAlts, s);
    if pick.Some? {
      LiftedAlt(e, n, pick.value, |env|);
      hide Scoped;
      ChosenSame(p, fuel, env, e.conAlts[pick.value], n.conAlts[pick.value], s, t, v);
    } else if e.def.Some? {
      PlainEval(p, fuel, env, v, e.def.value.body);
    }
  }

  lemma ConstBranchSame(p: CProg, fuel: nat, env: seq<CVal>, e: CExp, n: CExp, s: CVal, t: CVal, v: CVal)
    requires Proper(p) && GoodEnv(env) && Same(v, v) && Same(s, t) && Scoped(e, |env|)
    requires LiftsTo(e, n) && e.CConstCase?
    ensures SameOutcome(OldBranch(p, fuel, env, e, s, v), NewBranch(p, fuel, [v] + env, n, t))
  {
    hide Same, Eval, TryLiftOutConst, AllLamsConst, LiftOutLambda;
    SamePickConst(e.constAlts, n.constAlts, s, t);
    var pick := PickConst(e.constAlts, s);
    if pick.Some? {
      PlainEval(p, fuel, env, v, e.constAlts[pick.value].body.body);
    } else if e.def.Some? {
      PlainEval(p, fuel, env, v, e.def.value.body);
    }
  }

  lemma BranchSame(p: CProg, fuel: nat, env: seq<CVal>, e: CExp, n: CExp, s: CVal, t: CVal, v: CVal)
    requires Proper(p) && GoodEnv(env) && Same(v, v) && Same(s, t) && Scoped(e, |env|)
    requires LiftsTo(e, n)
    ensures SameOutcome(OldBranch(p, fuel, env, e, s, v), NewBranch(p, fuel, [v] + env, n, t))
  {
    if e.CConCase? { ConBranchSame(p, fuel, env, e, n, s, t, v); } else { ConstBranchSame(p, fuel, env, e, n, s, t, v); }
  }

  /** The scrutinee is weakened past the lambda. */
  lemma ScrutineeSame(p: CProg, fuel: nat, env: seq<CVal>, e: CExp, v: CVal)
    requires Proper(p) && GoodEnv(env) && Same(v, v) && Scoped(e, |env|)
    ensures SameOutcome(Eval(p, fuel, env, e), Eval(p, fuel, [v] + env, Weaken(1, e)))
  {
    WeakenScoped(1, |env|, e);
    InsertionEnv([], [v], env);
    NoArgs(env, v);
    hide Same, Weaken, Insertion;
    RenEval(p, fuel, Insertion(0, 1, |env|), env, [v] + env, e);
  }

  // ----- The lifted lambda, applied -----

  lemma BlockDoes(p: CProg, fuel: nat, env: seq<CVal>, e: CExp, n: CExp, v: CVal)
    requires Proper(p) && GoodEnv(env) && Same(v, v) && Scoped(e, |env|) && LiftsTo(e, n)
    requires OldRun(p, fuel, env, e, v) != Timeout
    ensures SameOutcome(OldRun(p, fuel, env, e, v), NewRun(p, fuel, [v] + env, n))
  {
    hide Same, Eval, OldBranch, NewBranch, Weaken;
    ScrutineeSame(p, fuel, env, e.scr, v);
    var o, o' := Eval(p, fuel, env, e.scr), Eval(p, fuel, [v] + env, n.scr);
    if o.Value? {
      BranchSame(p, fuel, env, e, n, o.v, o'.v, v);
      if fuel > 0 { OldBranchMore(p, fuel - 1, env, e, o.v, v); } else { NoBranch(p, fuel, env, e, o.v, v); }
    }
  }

  lemma NoBranch(p: CProg, fuel: nat, env: seq<CVal>, e: CExp, x: CVal, v: CVal)
    requires Liftable(e) && !HasBranch(e, x)
    ensures OldBranch(p, fuel, env, e, x, v) == Stuck
  {
  }

  lemma BlockOnlyDoes(p: CProg, fuel: nat, env: seq<CVal>, e: CExp, n: CExp, v: CVal)
    requires Proper(p) && GoodEnv(env) && Same(v, v) && Scoped(e, |env|) && LiftsTo(e, n)
    requires NewRun(p, fuel, [v] + env, n) != Timeout
    ensures SameOutcome(OldRun(p, fuel + 1, env, e, v), NewRun(p, fuel, [v] + env, n))
  {
    hide Same, Eval, OldBranch, NewBranch, Weaken;
    ScrutineeSame(p, fuel, env, e.scr, v);
    EvalMore(p, fuel, env, e.scr);
    var o, o' := Eval(p, fuel, env, e.scr), Eval(p, fuel, [v] + env, n.scr);
    if o.Value? { BranchSame(p, fuel, env, e, n, o.v, o'.v, v); }
  }

  /** Whatever the original block applied to `v` comes to, the lifted lambda applied
      to `v` comes to with one more unit of fuel. */
  lemma LiftedDoes(p: CProg, fuel: nat, env: seq<CVal>, x: Name, e: CExp, v: CVal)
    requires Proper(p) && GoodEnv(env) && Same(v, v) && Scoped(e, |env|) && LiftCase(x, e).Lambda?
    requires ApplyTo(p, fuel, env, e, v) != Timeout
    ensures SameOutcome(ApplyTo(p, fuel, env, e, v), ApplyTo(p, fuel + 1, env, LiftCase(x, e).e, v))
  {
    hide *;
    var n := LiftCaseShape(x, e);
    OldUnfold(p, fuel, env, e, v);
    NewUnfold(p, fuel + 1, env, x, n, v);
    BlockDoes(p, fuel, env, e, n, v);
  }

  /** Conversely, what the lifted lambda comes to the original does, with no more fuel. */
  lemma LiftedOnlyDoes(p: CProg, fuel: nat, env: seq<CVal>, x: Name, e: CExp, v: CVal)
    requires Proper(p) && GoodEnv(env) && Same(v, v) && Scoped(e, |env|) && LiftCase(x, e).Lambda?
    requires ApplyTo(p, fuel, env, LiftCase(x, e).e, v) != Timeout
    ensures SameOutcome(ApplyTo(p, fuel, env, e, v), ApplyTo(p, fuel, env, LiftCase(x, e).e, v))
  {
    hide *;
    var n := LiftCaseShape(x, e);
    OldUnfold(p, fuel, env, e, v);
    NewUnfold(p, fuel, env, x, n, v);
    assert fuel > 0;
    BlockOnlyDoes(p, fuel - 1, env, e, n, v);
  }

  lemma OldBranchMore(p: CProg, fuel: nat, env: seq<CVal>, e: CExp, x: CVal, v: CVal)
    requires Liftable(e) && OldBranch(p, fuel, env, e, x, v) != Timeout
    ensures OldBranch(p, fuel + 1, env, e, x, v) == OldBranch(p, fuel, env, e, x, v)
  {
    if e.CConCase? {
      LiftOutIff(e.conAlts);
      var pick := PickCon(e.conAlts, x);
      if pick.Some? {
        var alt := e.conAlts[pick.value];
        if |alt.args| == |x.args| { EvalMore(p, fuel, [v] + (x.args + env), alt.body.body); }
      } else if e.def.Some? {
        EvalMore(p, fuel, [v] + env, e.def.value.body);
      }
    } else {
      LiftOutConstIff(e.constAlts);
      var pick := PickConst(e.constAlts, x);
      if pick.Some? {
        EvalMore(p, fuel, [v] + env, e.constAlts[pick.value].body.body);
      } else if e.def.Some? {
        EvalMore(p, fuel, [v] + env, e.def.value.body);
      }
    }
  }

  /** Unapplied, the two differ: the lifted lambda is always a value, the original
      block exactly when its scrutinee is one and some branch takes it. */
  lemma LiftingDelays(p: CProg, fuel: nat, env: seq<CVal>, x: Name, e: CExp)
    requires LiftCase(x, e).Lambda?
    ensures Eval(p, fuel, env, LiftCase(x, e).e).Value?
    ensures Liftable(e)
    ensures
      var o := Eval(p, fuel, env, e.scr);
      Eval(p, fuel, env, e).Value? <==> o.Value? && HasBranch(e, o.v)
  {
    var n := LiftCaseShape(x, e);
    hide LiftCase, Weaken, LiftOutLambda;
    var o := Eval(p, fuel, env, e.scr);
    if o.Value? && HasBranch(e, o.v) {
      if e.CConCase? {
        var pick := PickCon(e.conAlts, o.v);
        if pick.Some? { assert e.conAlts[pick.value].body.CLam?; }
      } else {
        var pick := PickConst(e.constAlts, o.v);
        if pick.Some? { assert e.constAlts[pick.value].body.CLam?; }
      }
    }
  }
}

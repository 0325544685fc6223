/** Properties of all runs and all paths of register code: no register is read
    before it is assigned, tail calls end their path, and which registers are
    declared. */
module VMSafe {
  import opened Base
  import opened LiftedEval
  import opened ANFSyntax
  import opened ANFEval
  import opened VMSyntax
  import opened VMEval
  import opened VMCode
  import opened VMCorrect

  // ----- No register is read before it is assigned -----

  ghost predicate FreeIn(a: ANF, scope: set<int>) {
    forall i :: ALocal(i) in FreeVariables(a) ==> i in scope
  }

  ghost predicate Assigned(regs: Regs, scope: set<int>, used: set<int>) {
    forall i :: i in scope && i in used ==> i in regs.loc
  }

  /** The run read no unassigned register, lost none, and assigned its target. */
  ghost predicate SafeRun(r: Run<Regs>, regs: Regs, res: Reg) {
    !r.Unassigned? && (r.Done? ==> Read(r.v, res).Done? && regs.loc.Keys <= r.v.loc.Keys)
  }

  lemma {:induction false} ReadAllSafe(regs: Regs, rs: seq<Reg>)
    requires forall i :: 0 <= i < |rs| ==> rs[i] != RVal && (rs[i].Loc? ==> rs[i].i in regs.loc)
    ensures ReadAll(regs, rs).Done?
  {
    if rs != [] {
      assert rs[1..] == rs[1..];
      ReadAllSafe(regs, rs[1..]);
    }
  }

  lemma ArgsSafe(regs: Regs, scope: set<int>, args: seq<AVar>)
    requires forall i :: ALocal(i) in VarsOf(args) ==> i in scope
    requires Assigned(regs, scope, CollectRegs(ToRegs(args)))
    ensures ReadAll(regs, ToRegs(args)).Done?
  {
    var rs := ToRegs(args);
    forall i | 0 <= i < |rs| ensures rs[i] != RVal && (rs[i].Loc? ==> rs[i].i in regs.loc) {
      if rs[i].Loc? { assert args[i] == ALocal(rs[i].i) && args[i] in VarsOf(args); }
    }
    ReadAllSafe(regs, rs);
  }

  lemma {:induction false} FreeAltAt(alts: seq<AConAlt>, i: nat)
    requires i < |alts|
    ensures FreeVariables(alts[i].body) - LocalsOf(alts[i].args) <= FreeInAlts(alts)
    decreases i
  {
    hide FreeVariables;
    if i > 0 { FreeAltAt(alts[1..], i - 1); }
  }

  lemma {:induction false} FreeConstAltAt(alts: seq<AConstAlt>, i: nat)
    requires i < |alts|
    ensures FreeVariables(alts[i].body) <= FreeInConstAlts(alts)
    decreases i
  {
    hide FreeVariables;
    if i > 0 { FreeConstAltAt(alts[1..], i - 1); }
  }

  lemma {:induction false} ProjectSafe(p: VMProg, fuel: nat, s: int, i: int, used: set<int>, args: seq<int>, regs: Regs)
    requires ProjectArgs(s, i, used, args) != [] ==> s in regs.loc
    ensures var r := Exec(p, fuel, ProjectArgs(s, i, used, args), regs);
            !r.Unassigned? &&
            (r.Done? ==> regs.loc.Keys <= r.v.loc.Keys && forall x :: x in args && x in used ==> x in r.v.loc)
    decreases |args|
  {
    if args != [] {
      if args[0] in used {
        var inst := PROJECT(Loc(args[0]), Loc(s), i);
        var rest := ProjectArgs(s, i + 1, used, args[1..]);
        ExecOne(p, fuel, inst, regs);
        ExecConcat(p, fuel, [inst], rest, regs);
        var r := Step(p, fuel, inst, regs);
        if r.Done? { ProjectSafe(p, fuel, s, i + 1, used, args[1..], r.v); }
      } else {
        ProjectSafe(p, fuel, s, i + 1, used, args[1..], regs);
      }
    }
  }

  ghost predicate Sound(t: bool, res: Reg, a: ANF, regs: Regs, scope: set<int>) {
    !res.Discard? && FreeIn(a, scope) && Assigned(regs, scope, Used(ToVM(t, res, a)))
  }

  /** Whatever the values, running the code of a term whose variables are in scope
      reads only assigned registers. */
  lemma {:induction false} Safe(ap: AProg, vp: VMProg, ms: iset<string>, fuel: nat, t: bool, res: Reg, a: ANF,
                                regs: Regs, scope: set<int>)
    requires Compiles(ap, vp, ms) && Sound(t, res, a, regs, scope)
    ensures SafeRun(Exec(vp, fuel, ToVM(t, res, a), regs), regs, res)
    decreases fuel, 1, a, 1
  {
    match a
    case ALet(_, _, _) => SafeLet(ap, vp, ms, fuel, t, res, a, regs, scope);
    case AConCase(ALocal(_), _, _) => SafeCase(ap, vp, ms, fuel, t, res, a, regs, scope);
    case AConstCase(ALocal(_), _, _) => SafeConstCase(ap, vp, ms, fuel, t, res, a, regs, scope);
    case _ => SafeInst(ap, vp, ms, fuel, t, res, a, regs, scope);
  }

  lemma SafeLet(ap: AProg, vp: VMProg, ms: iset<string>, fuel: nat, t: bool, res: Reg, a: ANF,
                regs: Regs, scope: set<int>)
    requires a.ALet? && Compiles(ap, vp, ms) && Sound(t, res, a, regs, scope)
    ensures SafeRun(Exec(vp, fuel, ToVM(t, res, a), regs), regs, res)
    decreases fuel, 1, a, 0
  {
    hide Compiles, Exec;
    var c, d := ToVM(false, Loc(a.x), a.val), ToVM(t, res, a.body);
    UsedConcat(c, d);
    ExecConcat(vp, fuel, c, d, regs);
    Safe(ap, vp, ms, fuel, false, Loc(a.x), a.val, regs, scope);
    var r := Exec(vp, fuel, c, regs);
    if r.Done? { Safe(ap, vp, ms, fuel, t, res, a.body, r.v, scope + {a.x}); }
  }

  lemma WriteSafe(regs: Regs, res: Reg, v: Val)
    requires !res.Discard?
    ensures SafeRun(Done(Write(regs, res, v)), regs, res)
  {
  }

  lemma SafeInst(ap: AProg, vp: VMProg, ms: iset<string>, fuel: nat, t: bool, res: Reg, a: ANF,
                 regs: Regs, scope: set<int>)
    requires !a.ALet? && !(a.AConCase? && a.scr.ALocal?) && !(a.AConstCase? && a.scr.ALocal?)
    requires Compiles(ap, vp, ms) && Sound(t, res, a, regs, scope)
    ensures SafeRun(Exec(vp, fuel, ToVM(t, res, a), regs), regs, res)
    decreases fuel, 1, a, 0
  {
    hide Compiles, Exec, Step, Used, FreeIn, Assigned, SafeRun, CollectUsed;
    OneCode(t, res, a);
    var inst := ToVM(t, res, a)[0];
    ExecOne(vp, fuel, inst, regs);
    if a.AAppName? || a.AApp? {
      SafeCallStep(ap, vp, ms, fuel, t, res, a, regs, scope);
    } else {
      SafeStep(vp, fuel, t, res, a, regs, scope);
    }
  }

  lemma OneCode(t: bool, res: Reg, a: ANF)
    requires !res.Discard? && !a.ALet? && !(a.AConCase? && a.scr.ALocal?) && !(a.AConstCase? && a.scr.ALocal?)
    ensures |ToVM(t, res, a)| == 1 && ToVM(t, res, a) == [ToVM(t, res, a)[0]]
    ensures Used(ToVM(t, res, a)) == CollectUsed(ToVM(t, res, a)[0])
  {
    var code := ToVM(t, res, a);
    assert |code| == 1 && code == [code[0]];
    UsedOne(code[0]);
  }

  lemma SafeStep(vp: VMProg, fuel: nat, t: bool, res: Reg, a: ANF, regs: Regs, scope: set<int>)
    requires !a.ALet? && !(a.AConCase? && a.scr.ALocal?) && !(a.AConstCase? && a.scr.ALocal?)
    requires !a.AAppName? && !a.AApp? && !res.Discard? && FreeIn(a, scope) && |ToVM(t, res, a)| == 1
    requires Assigned(regs, scope, CollectUsed(ToVM(t, res, a)[0]))
    ensures SafeRun(Step(vp, fuel, ToVM(t, res, a)[0], regs), regs, res)
  {
    hide Exec, Used, Write, SafeRun;
    var inst, r := ToVM(t, res, a)[0], Step(vp, fuel, ToVM(t, res, a)[0], regs);
    if a.AUnderApp? || a.ACon? || a.AOp? || a.AExtPrim? { ArgsSafe(regs, scope, a.args); }
    if v :| r == Done(Write(regs, res, v)) {
      WriteSafe(regs, res, v);
    } else {
      assert r.Halt? || r.Wrong? || r.OutOfFuel?;
      Failed(r, regs, res);
    }
  }

  lemma Failed(r: Run<Regs>, regs: Regs, res: Reg)
    requires !r.Done? && !r.Unassigned?
    ensures SafeRun(r, regs, res)
  {
  }

  lemma SafeCallStep(ap: AProg, vp: VMProg, ms: iset<string>, fuel: nat, t: bool, res: Reg, a: ANF,
                     regs: Regs, scope: set<int>)
    requires (a.AAppName? || a.AApp?) && Compiles(ap, vp, ms) && !res.Discard? && FreeIn(a, scope)
    requires |ToVM(t, res, a)| == 1 && Assigned(regs, scope, CollectUsed(ToVM(t, res, a)[0]))
    ensures SafeRun(Step(vp, fuel, ToVM(t, res, a)[0], regs), regs, res)
    decreases fuel, 0, 2
  {
    hide Compiles, VCall, VApply, Exec, Used, Write, SafeRun;
    var r := Step(vp, fuel, ToVM(t, res, a)[0], regs);
    if a.AAppName? {
      ArgsSafe(regs, scope, a.args);
      SafeCall(ap, vp, ms, fuel, a.n, ReadAll(regs, ToRegs(a.args)).v);
    } else {
      assert a.closure in FreeVariables(a) && a.arg in FreeVariables(a);
      SafeApply(ap, vp, ms, fuel, Read(regs, ToReg(a.closure)).v, Read(regs, ToReg(a.arg)).v);
    }
    if v :| r == Done(Write(regs, res, v)) { WriteSafe(regs, res, v); } else { Failed(r, regs, res); }
  }

  lemma SafeAlt(ap: AProg, vp: VMProg, ms: iset<string>, fuel: nat, t: bool, res: Reg, alt: AConAlt, s: int,
                regs: Regs, scope: set<int>)
    requires Compiles(ap, vp, ms) && !res.Discard? && s in scope
    requires forall i :: ALocal(i) in FreeVariables(alt.body) - LocalsOf(alt.args) ==> i in scope
    requires Assigned(regs, scope, Used(AltCode(s, alt.args, ToVM(t, res, alt.body))))
    ensures SafeRun(Exec(vp, fuel, AltCode(s, alt.args, ToVM(t, res, alt.body)), regs), regs, res)
    decreases fuel, 1, alt, 0
  {
    hide Compiles, Exec, ToVM;
    var body := ToVM(t, res, alt.body);
    var proj := ProjectArgs(s, 0, Used(body), alt.args);
    UsedConcat(proj, body);
    ProjectUses(s, 0, Used(body), alt.args);
    ProjectSafe(vp, fuel, s, 0, Used(body), alt.args, regs);
    ExecConcat(vp, fuel, proj, body, regs);
    var r := Exec(vp, fuel, proj, regs);
    var scope' := scope + ToSet(alt.args);
    forall i | ALocal(i) in FreeVariables(alt.body) ensures i in scope' {
      if ALocal(i) in LocalsOf(alt.args) { assert i in alt.args; }
    }
    if r.Done? { Safe(ap, vp, ms, fuel, t, res, alt.body, r.v, scope'); }
  }

  lemma SafeCase(ap: AProg, vp: VMProg, ms: iset<string>, fuel: nat, t: bool, res: Reg, a: ANF,
                 regs: Regs, scope: set<int>)
    requires a.AConCase? && a.scr.ALocal? && Compiles(ap, vp, ms) && Sound(t, res, a, regs, scope)
    ensures SafeRun(Exec(vp, fuel, ToVM(t, res, a), regs), regs, res)
    decreases fuel, 1, a, 0
  {
    hide Compiles;
    var s := a.scr.i;
    assert a.scr in FreeVariables(a);
    forall i | 0 <= i < |a.conAlts|
      ensures forall j :: ALocal(j) in FreeVariables(a.conAlts[i].body) - LocalsOf(a.conAlts[i].args) ==> j in scope
    {
      FreeAltAt(a.conAlts, i);
    }
    if |a.conAlts| == 1 && a.def.None? {
      SafeAlt(ap, vp, ms, fuel, t, res, a.conAlts[0], s, regs, scope);
    } else {
      var inst := ToVM(t, res, a)[0];
      assert ToVM(t, res, a) == [inst] && inst.CASE?;
      UsedOne(inst);
      ExecOne(vp, fuel, inst, regs);
      var pick := PickKey(VMKeys(inst.alts), regs.loc[s]);
      assert Step(vp, fuel, inst, regs) ==
             if pick.Some? then Exec(vp, fuel, inst.alts[pick.value].code, regs)
             else if inst.def.Default? then Exec(vp, fuel, inst.def.code, regs) else Wrong;
      hide Exec, Used, VMKeys, Step;
      if pick.Some? {
        UsedAltAt(inst.alts, pick.value);
        SafeAlt(ap, vp, ms, fuel, t, res, a.conAlts[pick.value], s, regs, scope);
      } else if a.def.Some? {
        Safe(ap, vp, ms, fuel, t, res, a.def.value, regs, scope);
      }
    }
  }

  lemma SafeConstCase(ap: AProg, vp: VMProg, ms: iset<string>, fuel: nat, t: bool, res: Reg, a: ANF,
                      regs: Regs, scope: set<int>)
    requires a.AConstCase? && a.scr.ALocal? && Compiles(ap, vp, ms) && Sound(t, res, a, regs, scope)
    ensures SafeRun(Exec(vp, fuel, ToVM(t, res, a), regs), regs, res)
    decreases fuel, 1, a, 0
  {
    hide Compiles;
    var s := a.scr.i;
    assert a.scr in FreeVariables(a);
    var inst := ToVM(t, res, a)[0];
    assert ToVM(t, res, a) == [inst] && inst.CONSTCASE?;
    UsedOne(inst);
    ExecOne(vp, fuel, inst, regs);
    var pick := PickVal(VMConsts(inst.constAlts), regs.loc[s]);
    assert Step(vp, fuel, inst, regs) ==
           if pick.Some? then Exec(vp, fuel, inst.constAlts[pick.value].code, regs)
           else if inst.def.Default? then Exec(vp, fuel, inst.def.code, regs) else Wrong;
    hide Exec, Used, VMConsts, Step;
    if pick.Some? {
      UsedConstAltAt(inst.constAlts, pick.value);
      FreeConstAltAt(a.constAlts, pick.value);
      Safe(ap, vp, ms, fuel, t, res, a.constAlts[pick.value].body, regs, scope);
    } else if a.def.Some? {
      Safe(ap, vp, ms, fuel, t, res, a.def.value, regs, scope);
    }
  }

  lemma SafeApply(ap: AProg, vp: VMProg, ms: iset<string>, fuel: nat, g: Val, v: Val)
    requires Compiles(ap, vp, ms)
    ensures !VApply(vp, fuel, g, v).Unassigned?
    decreases fuel, 0, 1
  {
    hide Compiles;
    if g.VPap? { SafeCall(ap, vp, ms, fuel, g.n, g.args + [v]); }
  }

  /** No run of a compiled program reads a register before it is assigned. */
  lemma SafeCall(ap: AProg, vp: VMProg, ms: iset<string>, fuel: nat, n: Name, vs: seq<Val>)
    requires Compiles(ap, vp, ms)
    ensures !VCall(vp, fuel, n, vs).Unassigned?
    decreases fuel, 0, 0
  {
    hide Exec, ToVM, DeclareVars, BindAll, Binders, BoundOnce, Used, FreeVariables;
    if n in vp.defs && fuel > 0 {
      match ap.defs[n]
      case MkAFun(args, body) =>
        if |vs| == |args| {
          var env := BindAll(map[], args, vs);
          BindAllKeys(map[], args, vs);
          DeclareVarsExec(vp, fuel - 1, args, ToVM(true, RVal, body), Regs(env, None));
          forall i | ALocal(i) in FreeVariables(body) ensures i in ToSet(args) {
            assert ALocal(i) in LocalsOf(args);
          }
          Safe(ap, vp, ms, fuel - 1, true, RVal, body, Regs(env, None), ToSet(args));
        }
      case MkACon(_, _) =>
      case MkAForeign(_) =>
      case MkAError(expl) =>
        DeclareVarsExec(vp, fuel - 1, [], ToVM(true, RVal, expl), Regs(map[], None));
        Safe(ap, vp, ms, fuel - 1, true, RVal, expl, Regs(map[], None), {});
    }
  }

  // ----- Tail calls -----

  /** No call in the code is flagged tail. */
  predicate NoTail(code: seq<VMInst>)
    decreases code, 0
  {
    forall i :: 0 <= i < |code| ==> NoTailInst(code[i])
  }

  predicate NoTailInst(inst: VMInst)
    decreases inst, 0
  {
    match inst
    case CALL(_, t, _, _) => !t
    case CASE(_, alts, d) =>
      (forall i :: 0 <= i < |alts| ==> assert (alts decreases to alts[i]); NoTail(alts[i].code)) &&
      (d.Default? ==> NoTail(d.code))
    case CONSTCASE(_, alts, d) =>
      (forall i :: 0 <= i < |alts| ==> assert (alts decreases to alts[i]); NoTail(alts[i].code)) &&
      (d.Default? ==> NoTail(d.code))
    case _ => true
  }

  /** On every path, a call is flagged tail exactly when it is the last instruction and
      writes `RVal`. */
  predicate TailExact(code: seq<VMInst>)
    decreases code, 0
  {
    forall i :: 0 <= i < |code| ==>
      if i < |code| - 1 then NoTailInst(code[i]) else TailExactInst(code[i])
  }

  predicate TailExactInst(inst: VMInst)
    decreases inst, 0
  {
    match inst
    case CALL(r, t, _, _) => t <==> r == RVal
    case CASE(_, alts, d) =>
      (forall i :: 0 <= i < |alts| ==> assert (alts decreases to alts[i]); TailExact(alts[i].code)) &&
      (d.Default? ==> TailExact(d.code))
    case CONSTCASE(_, alts, d) =>
      (forall i :: 0 <= i < |alts| ==> assert (alts decreases to alts[i]); TailExact(alts[i].code)) &&
      (d.Default? ==> TailExact(d.code))
    case _ => true
  }

  lemma {:induction false} ProjectNoTail(s: int, i: int, used: set<int>, args: seq<int>)
    ensures NoTail(ProjectArgs(s, i, used, args))
    decreases |args|
  {
    if args != [] { ProjectNoTail(s, i + 1, used, args[1..]); }
  }

  lemma {:induction false} NotTailNoTail(res: Reg, a: ANF)
    ensures NoTail(ToVM(false, res, a))
    decreases a
  {
    match a
    case ALet(x, v, b) => NotTailNoTail(Loc(x), v); NotTailNoTail(res, b);
    case AConCase(ALocal(s), alts, d) =>
      forall i | 0 <= i < |alts| ensures NoTail(AltCode(s, alts[i].args, ToVM(false, res, alts[i].body))) {
        NotTailNoTail(res, alts[i].body);
        ProjectNoTail(s, 0, Used(ToVM(false, res, alts[i].body)), alts[i].args);
      }
      if d.Some? { NotTailNoTail(res, d.value); }
    case AConstCase(ALocal(_), alts, d) =>
      forall i | 0 <= i < |alts| ensures NoTail(ToVM(false, res, alts[i].body)) {
        assert (alts decreases to alts[i]);
        NotTailNoTail(res, alts[i].body);
      }
      if d.Some? { NotTailNoTail(res, d.value); }
    case _ =>
  }

  lemma {:induction false} ToVMNonEmpty(t: bool, res: Reg, a: ANF)
    requires !res.Discard?
    ensures ToVM(t, res, a) != []
    decreases a
  {
    match a
    case ALet(x, v, b) => ToVMNonEmpty(t, res, b);
    case AConCase(ALocal(_), alts, d) =>
      if |alts| == 1 && d.None? { ToVMNonEmpty(t, res, alts[0].body); }
    case _ =>
  }

  lemma TailAppend(c: seq<VMInst>, d: seq<VMInst>)
    requires NoTail(c) && TailExact(d) && d != []
    ensures TailExact(c + d)
  {
    hide NoTailInst, TailExactInst;
    var code := c + d;
    forall i | 0 <= i < |code|
      ensures if i < |code| - 1 then NoTailInst(code[i]) else TailExactInst(code[i])
    {
      if i < |c| { assert code[i] == c[i]; } else { assert code[i] == d[i - |c|]; }
    }
  }

  /** In a function body, a call is flagged tail if and only if it ends its path and
      writes `RVal`. */
  lemma {:induction false} TailCallsExact(a: ANF)
    ensures TailExact(ToVM(true, RVal, a))
    decreases a
  {
    match a
    case ALet(x, v, b) =>
      NotTailNoTail(Loc(x), v);
      TailCallsExact(b);
      ToVMNonEmpty(true, RVal, b);
      TailAppend(ToVM(false, Loc(x), v), ToVM(true, RVal, b));
    case AConCase(ALocal(s), alts, d) =>
      forall i | 0 <= i < |alts| ensures TailExact(AltCode(s, alts[i].args, ToVM(true, RVal, alts[i].body))) {
        var body := ToVM(true, RVal, alts[i].body);
        TailCallsExact(alts[i].body);
        ToVMNonEmpty(true, RVal, alts[i].body);
        ProjectNoTail(s, 0, Used(body), alts[i].args);
        TailAppend(ProjectArgs(s, 0, Used(body), alts[i].args), body);
      }
      if d.Some? { TailCallsExact(d.value); }
    case AConstCase(ALocal(_), alts, d) =>
      forall i | 0 <= i < |alts| ensures TailExact(ToVM(true, RVal, alts[i].body)) {
        assert (alts decreases to alts[i]);
        TailCallsExact(alts[i].body);
      }
      if d.Some? { TailCallsExact(d.value); }
    case _ =>
  }

  // ----- Tests -----

  /** No instruction tests the tag of a value that can only have one: a test has at least
      two outcomes, or none. */
  predicate RealTests(code: seq<VMInst>)
    decreases code, 0
  {
    forall i :: 0 <= i < |code| ==> RealTestInst(code[i])
  }

  predicate RealTestInst(inst: VMInst)
    decreases inst, 0
  {
    match inst
    case CASE(_, alts, d) =>
      (|alts| == 1 ==> d.Default?) &&
      (forall i :: 0 <= i < |alts| ==> assert (alts decreases to alts[i]); RealTests(alts[i].code)) &&
      (d.Default? ==> RealTests(d.code))
    case CONSTCASE(_, alts, d) =>
      (forall i :: 0 <= i < |alts| ==> assert (alts decreases to alts[i]); RealTests(alts[i].code)) &&
      (d.Default? ==> RealTests(d.code))
    case _ => true
  }

  lemma {:induction false} ProjectRealTests(s: int, i: int, used: set<int>, args: seq<int>)
    ensures RealTests(ProjectArgs(s, i, used, args))
    decreases |args|
  {
    if args != [] { ProjectRealTests(s, i + 1, used, args[1..]); }
  }

  /** A lone alternative without a default is run without a test. */
  lemma {:induction false} LoneAlternativeUntested(t: bool, res: Reg, a: ANF)
    ensures RealTests(ToVM(t, res, a))
    decreases a
  {
    match a
    case ALet(x, v, b) => LoneAlternativeUntested(false, Loc(x), v); LoneAlternativeUntested(t, res, b);
    case AConCase(ALocal(s), alts, d) =>
      forall i | 0 <= i < |alts| ensures RealTests(AltCode(s, alts[i].args, ToVM(t, res, alts[i].body))) {
        LoneAlternativeUntested(t, res, alts[i].body);
        ProjectRealTests(s, 0, Used(ToVM(t, res, alts[i].body)), alts[i].args);
      }
      if d.Some? { LoneAlternativeUntested(t, res, d.value); }
    case AConstCase(ALocal(_), alts, d) =>
      forall i | 0 <= i < |alts| ensures RealTests(ToVM(t, res, alts[i].body)) {
        assert (alts decreases to alts[i]);
        LoneAlternativeUntested(t, res, alts[i].body);
      }
      if d.Some? { LoneAlternativeUntested(t, res, d.value); }
    case _ =>
  }

  // ----- Declarations -----

  /** The registers declared at the head of a definition. */
  function Declared(code: seq<VMInst>): set<int> {
    set i | 0 <= i < |code| && code[i].DECLARE? && code[i].r.Loc? :: code[i].r.i
  }

  lemma {:induction false} DeclareAllExact(got: set<int>, vs: seq<int>)
    ensures Declared(DeclareAll(got, vs)) == ToSet(vs) - got
    ensures var ds := DeclareAll(got, vs);
            forall i, j :: 0 <= i < j < |ds| ==> ds[i] != ds[j]
    decreases |vs|
  {
    if vs != [] {
      var rest := vs[1..];
      assert ToSet(vs) == {vs[0]} + ToSet(rest);
      if vs[0] in got {
        DeclareAllExact(got, rest);
      } else {
        DeclareAllExact(got + {vs[0]}, rest);
        var head, ds := DECLARE(Loc(vs[0])), DeclareAll(got + {vs[0]}, rest);
        DeclaredCons(head, ds);
        assert vs[0] !in Declared(ds);
        forall j | 0 <= j < |ds| ensures ds[j] != head { NotDeclared(ds, j, vs[0]); }
      }
    }
  }

  lemma NotDeclared(ds: seq<VMInst>, j: nat, x: int)
    requires j < |ds| && x !in Declared(ds)
    ensures ds[j] != DECLARE(Loc(x))
  {
    if ds[j].DECLARE? && ds[j].r.Loc? { assert ds[j].r.i in Declared(ds); }
  }

  lemma DeclaredCons(d: VMInst, ds: seq<VMInst>)
    requires d.DECLARE? && d.r.Loc?
    ensures Declared([d] + ds) == {d.r.i} + Declared(ds)
  {
    var code := [d] + ds;
    forall x | x in Declared(ds) ensures x in Declared(code) {
      var i :| 0 <= i < |ds| && ds[i].DECLARE? && ds[i].r.Loc? && ds[i].r.i == x;
      assert code[i + 1] == ds[i];
    }
    forall x | x in Declared(code) ensures x in {d.r.i} + Declared(ds) {
      var i :| 0 <= i < |code| && code[i].DECLARE? && code[i].r.Loc? && code[i].r.i == x;
      if i > 0 { assert code[i] == ds[i - 1]; }
    }
    assert code[0] == d;
  }

  function TargetOf(inst: VMInst): Reg {
    match inst
    case DECLARE(_) => Discard
    case START => Discard
    case CASE(_, _, _) => Discard
    case CONSTCASE(_, _, _) => Discard
    case ERROR(_) => Discard
    case _ => inst.r
  }

  /** The registers some instruction of the code writes; with `onlyNull`, those
      some `NULL` writes. */
  function Written(onlyNull: bool, code: seq<VMInst>): set<int>
    decreases code, 0
  {
    if code == [] then {} else WrittenBy(onlyNull, code[0]) + Written(onlyNull, code[1..])
  }

  function WrittenBy(onlyNull: bool, inst: VMInst): set<int>
    decreases inst, 0
  {
    match inst
    case CASE(_, alts, d) => WrittenAlts(onlyNull, alts) + (if d.Default? then Written(onlyNull, d.code) else {})
    case CONSTCASE(_, alts, d) =>
      WrittenConstAlts(onlyNull, alts) + (if d.Default? then Written(onlyNull, d.code) else {})
    case _ => if !onlyNull || inst.NULL? then CollectReg(TargetOf(inst)) else {}
  }

  function WrittenAlts(onlyNull: bool, alts: seq<VMAlt>): set<int>
    decreases alts, 0
  {
    if alts == [] then {}
    else
      assert (alts decreases to alts[0]);
      Written(onlyNull, alts[0].code) + WrittenAlts(onlyNull, alts[1..])
  }

  function WrittenConstAlts(onlyNull: bool, alts: seq<VMConstAlt>): set<int>
    decreases alts, 0
  {
    if alts == [] then {}
    else
      assert (alts decreases to alts[0]);
      Written(onlyNull, alts[0].code) + WrittenConstAlts(onlyNull, alts[1..])
  }

  lemma ToSetConcat(xs: seq<int>, ys: seq<int>)
    ensures ToSet(xs + ys) == ToSet(xs) + ToSet(ys)
  {
  }

  lemma {:induction false} WrittenIs(code: seq<VMInst>)
    ensures Written(false, code) == ToSet(FindAll(code)) + Written(true, code)
    decreases code, 0
  {
    if code != [] {
      WrittenByIs(code[0]);
      WrittenIs(code[1..]);
      ToSetConcat(FindVars(code[0]), FindAll(code[1..]));
    }
  }

  lemma {:induction false} WrittenByIs(inst: VMInst)
    ensures WrittenBy(false, inst) == ToSet(FindVars(inst)) + WrittenBy(true, inst)
    decreases inst, 0
  {
    match inst
    case CASE(_, alts, d) =>
      WrittenAltsIs(alts);
      ToSetConcat(FindInAlts(alts), if d.Default? then FindAll(d.code) else []);
      if d.Default? { WrittenIs(d.code); }
    case CONSTCASE(_, alts, d) =>
      WrittenConstAltsIs(alts);
      ToSetConcat(FindInConstAlts(alts), if d.Default? then FindAll(d.code) else []);
      if d.Default? { WrittenIs(d.code); }
    case _ =>
  }

  lemma {:induction false} WrittenAltsIs(alts: seq<VMAlt>)
    ensures WrittenAlts(false, alts) == ToSet(FindInAlts(alts)) + WrittenAlts(true, alts)
    decreases alts, 0
  {
    if alts != [] {
      assert (alts decreases to alts[0]);
      WrittenIs(alts[0].code);
      WrittenAltsIs(alts[1..]);
      ToSetConcat(FindAll(alts[0].code), FindInAlts(alts[1..]));
    }
  }

  lemma {:induction false} WrittenConstAltsIs(alts: seq<VMConstAlt>)
    ensures WrittenConstAlts(false, alts) == ToSet(FindInConstAlts(alts)) + WrittenConstAlts(true, alts)
    decreases alts, 0
  {
    if alts != [] {
      assert (alts decreases to alts[0]);
      WrittenIs(alts[0].code);
      WrittenConstAltsIs(alts[1..]);
      ToSetConcat(FindAll(alts[0].code), FindInConstAlts(alts[1..]));
    }
  }

  /** The declarations that code begins with. */
  function Heading(code: seq<VMInst>): seq<VMInst> {
    if code != [] && code[0].DECLARE? then [code[0]] + Heading(code[1..]) else []
  }

  lemma {:induction false} DeclareAllForm(got: set<int>, vs: seq<int>)
    ensures forall i :: 0 <= i < |DeclareAll(got, vs)| ==> DeclareAll(got, vs)[i].DECLARE? && DeclareAll(got, vs)[i].r.Loc?
    decreases |vs|
  {
    if vs != [] { DeclareAllForm(if vs[0] in got then got else got + {vs[0]}, vs[1..]); }
  }

  lemma {:induction false} HeadingIs(ds: seq<VMInst>, code: seq<VMInst>)
    requires forall i :: 0 <= i < |ds| ==> ds[i].DECLARE?
    ensures Heading(ds + [START] + code) == ds
    decreases |ds|
  {
    var all := ds + [START] + code;
    if ds == [] {
      assert all == [START] + code;
    } else {
      HeadingIs(ds[1..], code);
      assert all == [ds[0]] + (ds[1..] + [START] + code) && all[1..] == ds[1..] + [START] + code;
    }
  }

  lemma HeadingNoTail(ds: seq<VMInst>)
    requires forall i :: 0 <= i < |ds| ==> ds[i].DECLARE?
    ensures NoTail(ds + [START])
  {
  }

  /** Declarations write nothing and are not what `findVars` finds. */
  lemma {:induction false} HeadingWrites(ds: seq<VMInst>, code: seq<VMInst>)
    requires forall i :: 0 <= i < |ds| ==> ds[i].DECLARE?
    ensures var all := ds + [START] + code;
            FindAll(all) == FindAll(code) && Written(false, all) == Written(false, code) && Written(true, all) == Written(true, code)
    decreases |ds|
  {
    var all := ds + [START] + code;
    if ds == [] {
      assert all == [START] + code && all[1..] == code;
    } else {
      HeadingWrites(ds[1..], code);
      assert all == [ds[0]] + (ds[1..] + [START] + code) && all[1..] == ds[1..] + [START] + code;
    }
  }

  /** A compiled definition declares each register its code writes that `findVars` finds
      and that is no parameter, once; then starts; then runs the code, in which calls
      are flagged tail exactly when they should be. */
  lemma DefinitionCode(args: seq<int>, body: ANF)
    ensures
      var d := ToVMDef(MkAFun(args, body)).value;
      var h := Heading(d.code);
      && d.args == args && d.code == h + [START] + ToVM(true, RVal, body)
      && Declared(h) == ToSet(FindAll(d.code)) - ToSet(args)
      && (forall i :: 0 <= i < |h| ==> h[i].DECLARE? && h[i].r.Loc?) && (forall i, j :: 0 <= i < j < |h| ==> h[i] != h[j])
      && TailExact(d.code)
    ensures ToVMDef(MkAError(body)) == Some(MkVMError(ToVMDef(MkAFun([], body)).value.code))
  {
    var code, got := ToVM(true, RVal, body), ToSet(args);
    var ds := DeclareAll(got, FindAll(code));
    DeclareAllForm(got, FindAll(code));
    DeclareAllExact(got, FindAll(code));
    HeadingIs(ds, code);
    HeadingNoTail(ds);
    HeadingWrites(ds, code);
    TailCallsExact(body);
    ToVMNonEmpty(true, RVal, body);
    TailAppend(ds + [START], code);
  }

  /** Every register a definition writes is a parameter or declared before it starts,
      exactly when each target of a `NULL` is a parameter or also written by another
      instruction. */
  lemma DeclaredExactly(args: seq<int>, code: seq<VMInst>)
    ensures var all := DeclareVars(args, code);
            Written(false, all) <= ToSet(args) + Declared(Heading(all)) <==>
            Written(true, all) <= ToSet(args) + ToSet(FindAll(all))
  {
    WrittenIs(code);
    DeclareAllForm(ToSet(args), FindAll(code));
    DeclareAllExact(ToSet(args), FindAll(code));
    HeadingIs(DeclareAll(ToSet(args), FindAll(code)), code);
    HeadingWrites(DeclareAll(ToSet(args), FindAll(code)), code);
  }

  /** `findVars` overlooks registers that only ever receive an erased value. */
  lemma NullTargetUndeclared()
    ensures var a := ALet(0, AErased, AV(ALocal(0)));
            var code := ToVM(true, RVal, a);
            code == [NULL(Loc(0)), ASSIGN(RVal, Loc(0))] && DeclareVars([], code) == [START] + code
  {
    var a := ALet(0, AErased, AV(ALocal(0)));
    var code := ToVM(true, RVal, a);
    assert code == [NULL(Loc(0)), ASSIGN(RVal, Loc(0))];
    assert code[1..] == [ASSIGN(RVal, Loc(0))] && code[1..][1..] == [];
    assert FindAll(code[1..]) == [] + FindAll([]);
    assert FindAll(code) == [];
    assert [] + [START] + code == [START] + code;
  }
}

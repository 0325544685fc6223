/** Register code refines administrative normal form. */
module VMCorrect {
  import opened Base
  import opened LiftedEval
  import opened ANFSyntax
  import opened ANFEval
  import opened ANFForm
  import opened VMSyntax
  import opened VMEval
  import opened VMCode

  /** What is asked of an ANF definition; conversion establishes it. */
  ghost predicate GoodDef(d: ADef, ms: iset<string>) {
    match d
    case MkAFun(args, body) =>
      Shaped(body, ms) && BoundOnce(body) && ToSet(args) !! Binders(body) &&
      FreeVariables(body) <= LocalsOf(args) + {AErasedVar}
    case MkAError(expl) => Shaped(expl, ms) && BoundOnce(expl) && FreeVariables(expl) <= {AErasedVar}
    case _ => true
  }

  /** `vp` is the register code of `ap`. */
  ghost predicate Compiles(ap: AProg, vp: VMProg, ms: iset<string>) {
    && vp.prim == ap.prim
    && (forall n :: n in vp.defs ==> n in ap.defs)
    && (forall n :: n in ap.defs ==>
          && GoodDef(ap.defs[n], ms)
          && (n in vp.defs <==> ToVMDef(ap.defs[n]).Some?)
          && (n in vp.defs ==> ToVMDef(ap.defs[n]) == Some(vp.defs[n])))
  }

  /** The registers in `used` hold what the environment says. */
  ghost predicate Holds(regs: Regs, env: Env, used: set<int>) {
    forall i :: i in used && i in env ==> i in regs.loc && regs.loc[i] == env[i]
  }

  /** Only the registers in `bs`, and the target, may have changed. */
  ghost predicate Kept(regs: Regs, regs': Regs, bs: set<int>, res: Reg) {
    forall i :: i !in bs && res != Loc(i) ==>
      (i in regs'.loc <==> i in regs.loc) && (i in regs.loc ==> regs'.loc[i] == regs.loc[i])
  }

  /** The run follows the outcome: the value ends up in the target register. */
  ghost predicate Follows(o: Outcome<Val>, r: Run<Regs>, regs: Regs, bs: set<int>, res: Reg) {
    match o
    case Value(v) => r.Done? && Read(r.v, res) == Done(v) && Kept(regs, r.v, bs, res)
    case Crash(m) => r == Halt(m)
    case Stuck => true
    case Timeout => r == OutOfFuel
  }

  ghost predicate FollowsVal(o: Outcome<Val>, r: Run<Val>) {
    o.Stuck? || r == FromOutcome(o)
  }

  // ----- Code -----

  lemma {:induction false} ExecConcat(p: VMProg, fuel: nat, c: seq<VMInst>, d: seq<VMInst>, regs: Regs)
    ensures Exec(p, fuel, c + d, regs) ==
            (var r := Exec(p, fuel, c, regs); if r.Done? then Exec(p, fuel, d, r.v) else r)
    decreases |c|
  {
    hide Step;
    if c == [] {
      assert c + d == d;
    } else {
      assert (c + d)[0] == c[0] && (c + d)[1..] == c[1..] + d;
      var r := Step(p, fuel, c[0], regs);
      if r.Done? { ExecConcat(p, fuel, c[1..], d, r.v); }
    }
  }

  lemma ExecOne(p: VMProg, fuel: nat, inst: VMInst, regs: Regs)
    ensures Exec(p, fuel, [inst], regs) == Step(p, fuel, inst, regs)
  {
    hide Step;
    var r := Step(p, fuel, inst, regs);
    assert [inst][1..] == [];
    if r.Done? { assert Exec(p, fuel, [], r.v) == Done(r.v); }
  }

  lemma {:induction false} UsedConcat(c: seq<VMInst>, d: seq<VMInst>)
    ensures Used(c + d) == Used(c) + Used(d)
    decreases |c|
  {
    hide CollectUsed;
    if c == [] {
      assert c + d == d;
    } else {
      assert (c + d)[0] == c[0] && (c + d)[1..] == c[1..] + d;
      UsedConcat(c[1..], d);
    }
  }

  lemma UsedOne(inst: VMInst)
    ensures Used([inst]) == CollectUsed(inst)
  {
    assert [inst][1..] == [] && Used([]) == {};
  }

  lemma {:induction false} UsedAltAt(alts: seq<VMAlt>, i: nat)
    requires i < |alts|
    ensures Used(alts[i].code) <= UsedInAlts(alts)
    decreases i
  {
    if i > 0 { UsedAltAt(alts[1..], i - 1); }
  }

  lemma {:induction false} UsedConstAltAt(alts: seq<VMConstAlt>, i: nat)
    requires i < |alts|
    ensures Used(alts[i].code) <= UsedInConstAlts(alts)
    decreases i
  {
    if i > 0 { UsedConstAltAt(alts[1..], i - 1); }
  }

  lemma {:induction false} AltOnce(alts: seq<AConAlt>, i: nat)
    requires ConBoundOnce(alts) && i < |alts|
    ensures BoundOnce(alts[i].body) && ToSet(alts[i].args) !! Binders(alts[i].body)
    ensures Binders(alts[i].body) <= ConBinders(alts) && ToSet(alts[i].args) <= ConBinders(alts)
    decreases i
  {
    hide BoundOnce, Binders;
    if i > 0 { AltOnce(alts[1..], i - 1); }
  }

  lemma {:induction false} ConstAltOnce(alts: seq<AConstAlt>, i: nat)
    requires ConstBoundOnce(alts) && i < |alts|
    ensures BoundOnce(alts[i].body) && Binders(alts[i].body) <= ConstBinders(alts)
    decreases i
  {
    hide BoundOnce, Binders;
    if i > 0 { ConstAltOnce(alts[1..], i - 1); }
  }

  // ----- Registers -----

  lemma ReadVar(regs: Regs, env: Env, v: AVar)
    requires Holds(regs, env, CollectReg(ToReg(v)))
    ensures Look(env, v).Value? ==> Read(regs, ToReg(v)) == Done(Look(env, v).v)
  {
  }

  lemma {:induction false} ReadVars(regs: Regs, env: Env, vs: seq<AVar>)
    requires Holds(regs, env, CollectRegs(ToRegs(vs)))
    ensures !LookAll(env, vs).Crash? && !LookAll(env, vs).Timeout?
    ensures LookAll(env, vs).Value? ==> ReadAll(regs, ToRegs(vs)) == Done(LookAll(env, vs).v)
    decreases |vs|
  {
    if vs != [] {
      var rs := ToRegs(vs);
      assert ToRegs(vs[1..]) == rs[1..];
      forall i | i in CollectRegs(rs[1..]) ensures i in CollectRegs(rs) {
        var j :| 0 <= j < |rs[1..]| && rs[1..][j].Loc? && rs[1..][j].i == i;
        assert rs[j + 1] == rs[1..][j];
      }
      ReadVars(regs, env, vs[1..]);
      if vs[0].ALocal? { assert rs[0].Loc? && rs[0].i in CollectRegs(rs); }
      ReadVar(regs, env, vs[0]);
    }
  }

  lemma WriteKept(regs: Regs, res: Reg, v: Val, bs: set<int>)
    requires !res.Discard?
    ensures Read(Write(regs, res, v), res) == Done(v) && Kept(regs, Write(regs, res, v), bs, res)
  {
  }

  // ----- Projections -----

  lemma {:induction false} ProjectUses(s: int, i: int, used: set<int>, args: seq<int>)
    ensures Used(ProjectArgs(s, i, used, args)) == if ProjectArgs(s, i, used, args) == [] then {} else {s}
    decreases |args|
  {
    if args != [] {
      ProjectUses(s, i + 1, used, args[1..]);
      if args[0] in used {
        var p := PROJECT(Loc(args[0]), Loc(s), i);
        var rest := ProjectArgs(s, i + 1, used, args[1..]);
        UsedConcat([p], rest);
        UsedOne(p);
      }
    }
  }

  /** A field is projected exactly when its register is read, from its own position. */
  lemma {:induction false} ProjectIff(s: int, i: int, used: set<int>, args: seq<int>, inst: VMInst)
    ensures inst in ProjectArgs(s, i, used, args) <==>
            exists j :: 0 <= j < |args| && args[j] in used && inst == PROJECT(Loc(args[j]), Loc(s), i + j)
    decreases |args|
  {
    if args != [] {
      ProjectIff(s, i + 1, used, args[1..], inst);
      if j :| 0 <= j < |args| && args[j] in used && inst == PROJECT(Loc(args[j]), Loc(s), i + j) {
        if j > 0 { assert args[1..][j - 1] == args[j]; }
      }
      if j :| 0 <= j < |args[1..]| && args[1..][j] in used && inst == PROJECT(Loc(args[1..][j]), Loc(s), i + 1 + j) {
        assert args[j + 1] == args[1..][j];
        assert inst == PROJECT(Loc(args[j + 1]), Loc(s), i + (j + 1));
      }
    }
  }

  /** Projecting only the used fields gives every used register the value the
      alternative binds it to. */
  lemma {:induction false} ProjectSim(p: VMProg, fuel: nat, s: int, i: nat, used: set<int>, args: seq<int>,
                                      key: ConKey, fields: seq<Val>, regs: Regs, env: Env)
    requires i + |args| == |fields| && s !in args
    requires ProjectArgs(s, i, used, args) != [] ==> s in regs.loc && regs.loc[s] == VCon(key, fields)
    requires Holds(regs, env, used)
    ensures var r := Exec(p, fuel, ProjectArgs(s, i, used, args), regs);
            && r.Done? && Holds(r.v, BindAll(env, args, fields[i..]), used)
            && Kept(regs, r.v, ToSet(args), Discard)
    decreases |args|
  {
    if args != [] {
      var x := args[0];
      var env' := env[x := fields[i]];
      assert fields[i..][1..] == fields[i + 1..] && fields[i..][0] == fields[i];
      if x in used {
        var inst := PROJECT(Loc(x), Loc(s), i);
        var rest := ProjectArgs(s, i + 1, used, args[1..]);
        var regs' := Write(regs, Loc(x), fields[i]);
        ExecOne(p, fuel, inst, regs);
        ExecConcat(p, fuel, [inst], rest, regs);
        ProjectSim(p, fuel, s, i + 1, used, args[1..], key, fields, regs', env');
      } else {
        ProjectSim(p, fuel, s, i + 1, used, args[1..], key, fields, regs, env');
      }
    }
  }

  // ----- The simulation -----

  ghost predicate Ready(t: bool, res: Reg, a: ANF, env: Env, regs: Regs, dom: set<int>, ms: iset<string>) {
    && !res.Discard? && Shaped(a, ms) && BoundOnce(a) && Binders(a) !! dom && env.Keys <= dom
    && Holds(regs, env, Used(ToVM(t, res, a)))
  }

  /** From registers that agree with the environment on everything the code reads,
      the code leaves the ANF result in the target register. */
  lemma {:induction false} VSim(ap: AProg, vp: VMProg, ms: iset<string>, fuel: nat, t: bool, res: Reg, a: ANF,
                                env: Env, regs: Regs, dom: set<int>)
    requires Compiles(ap, vp, ms) && Ready(t, res, a, env, regs, dom, ms)
    ensures Follows(AEval(ap, fuel, env, a), Exec(vp, fuel, ToVM(t, res, a), regs), regs, Binders(a), res)
    decreases fuel, 1, a, 1
  {
    match a
    case ALet(_, _, _) => SimLet(ap, vp, ms, fuel, t, res, a, env, regs, dom);
    case AConCase(_, _, _) => SimCase(ap, vp, ms, fuel, t, res, a, env, regs, dom);
    case AConstCase(_, _, _) => SimConstCase(ap, vp, ms, fuel, t, res, a, env, regs, dom);
    case AAppName(_, _) => SimCall(ap, vp, ms, fuel, t, res, a, env, regs, dom);
    case AApp(_, _) => SimCall(ap, vp, ms, fuel, t, res, a, env, regs, dom);
    case _ => SimInst(ap, vp, ms, fuel, t, res, a, env, regs, dom);
  }

  lemma SimLet(ap: AProg, vp: VMProg, ms: iset<string>, fuel: nat, t: bool, res: Reg, a: ANF,
               env: Env, regs: Regs, dom: set<int>)
    requires a.ALet? && Compiles(ap, vp, ms) && Ready(t, res, a, env, regs, dom, ms)
    ensures Follows(AEval(ap, fuel, env, a), Exec(vp, fuel, ToVM(t, res, a), regs), regs, Binders(a), res)
    decreases fuel, 1, a, 0
  {
    hide Compiles, Exec;
    var c, d := ToVM(false, Loc(a.x), a.val), ToVM(t, res, a.body);
    UsedConcat(c, d);
    ExecConcat(vp, fuel, c, d, regs);
    VSim(ap, vp, ms, fuel, false, Loc(a.x), a.val, env, regs, dom);
    hide ToVM, Used;
    var v := AEval(ap, fuel, env, a.val);
    if v.Value? {
      var regs1 := Exec(vp, fuel, c, regs).v;
      var env1 := env[a.x := v.v];
      assert Holds(regs1, env1, Used(d));
      VSim(ap, vp, ms, fuel, t, res, a.body, env1, regs1, dom + {a.x});
    }
  }

  /** The run writes the value to the target and does nothing else. */
  ghost predicate Lands(o: Outcome<Val>, r: Run<Regs>, regs: Regs, res: Reg) {
    match o
    case Value(v) => r == Done(Write(regs, res, v))
    case Crash(m) => r == Halt(m)
    case Stuck => true
    case Timeout => r == OutOfFuel
  }

  lemma LandsFollows(o: Outcome<Val>, r: Run<Regs>, regs: Regs, bs: set<int>, res: Reg)
    requires Lands(o, r, regs, res) && !res.Discard?
    ensures Follows(o, r, regs, bs, res)
  {
    if o.Value? { WriteKept(regs, res, o.v, bs); }
    hide Kept, Write, Read;
  }

  lemma SimInst(ap: AProg, vp: VMProg, ms: iset<string>, fuel: nat, t: bool, res: Reg, a: ANF,
                env: Env, regs: Regs, dom: set<int>)
    requires !a.ALet? && !a.AConCase? && !a.AConstCase? && !a.AAppName? && !a.AApp?
    requires vp.prim == ap.prim && Ready(t, res, a, env, regs, dom, ms)
    ensures Follows(AEval(ap, fuel, env, a), Exec(vp, fuel, ToVM(t, res, a), regs), regs, Binders(a), res)
  {
    hide Follows, AEval, Exec, Used, Binders, Shaped, BoundOnce;
    var code := ToVM(t, res, a);
    OneInst(t, res, a);
    ExecOne(vp, fuel, code[0], regs);
    if a.AUnderApp? || a.ACon? || a.AOp? || a.AExtPrim? {
      StepArgs(ap, vp, fuel, t, res, a, env, regs);
    } else {
      StepPlain(ap, vp, fuel, t, res, a, env, regs);
    }
    LandsFollows(AEval(ap, fuel, env, a), Exec(vp, fuel, code, regs), regs, Binders(a), res);
  }

  lemma OneInst(t: bool, res: Reg, a: ANF)
    requires !res.Discard? && !a.ALet? && !a.AConCase? && !a.AConstCase?
    ensures |ToVM(t, res, a)| == 1 && ToVM(t, res, a) == [ToVM(t, res, a)[0]]
    ensures Used(ToVM(t, res, a)) == CollectUsed(ToVM(t, res, a)[0])
  {
    var code := ToVM(t, res, a);
    assert |code| == 1 && code == [code[0]];
    UsedOne(code[0]);
  }

  lemma StepArgs(ap: AProg, vp: VMProg, fuel: nat, t: bool, res: Reg, a: ANF, env: Env, regs: Regs)
    requires a.AUnderApp? || a.ACon? || a.AOp? || a.AExtPrim?
    requires vp.prim == ap.prim && |ToVM(t, res, a)| == 1 && Holds(regs, env, CollectUsed(ToVM(t, res, a)[0]))
    ensures Lands(AEval(ap, fuel, env, a), Step(vp, fuel, ToVM(t, res, a)[0], regs), regs, res)
  {
    hide Write, Exec, Used;
    ReadVars(regs, env, a.args);
  }

  lemma StepPlain(ap: AProg, vp: VMProg, fuel: nat, t: bool, res: Reg, a: ANF, env: Env, regs: Regs)
    requires a.AV? || a.APrimVal? || a.AErased? || a.ACrash?
    requires |ToVM(t, res, a)| == 1 && Holds(regs, env, CollectUsed(ToVM(t, res, a)[0]))
    ensures Lands(AEval(ap, fuel, env, a), Step(vp, fuel, ToVM(t, res, a)[0], regs), regs, res)
  {
    hide Write, Exec, Used;
    if a.AV? { ReadVar(regs, env, a.v); }
  }

  lemma SimCall(ap: AProg, vp: VMProg, ms: iset<string>, fuel: nat, t: bool, res: Reg, a: ANF,
                env: Env, regs: Regs, dom: set<int>)
    requires a.AAppName? || a.AApp?
    requires Compiles(ap, vp, ms) && Ready(t, res, a, env, regs, dom, ms)
    ensures Follows(AEval(ap, fuel, env, a), Exec(vp, fuel, ToVM(t, res, a), regs), regs, Binders(a), res)
    decreases fuel, 1, a, 0
  {
    hide Compiles, VCall, ACall, VApply, AApply;
    var code := ToVM(t, res, a);
    assert |code| == 1 && code == [code[0]];
    UsedOne(code[0]);
    ExecOne(vp, fuel, code[0], regs);
    hide Exec, Used;
    if a.AAppName? {
      ReadVars(regs, env, a.args);
      var vs := LookAll(env, a.args);
      if vs.Value? { VCallSim(ap, vp, ms, fuel, a.n, vs.v); }
    } else {
      ReadVar(regs, env, a.closure);
      ReadVar(regs, env, a.arg);
      var g, v := Look(env, a.closure), Look(env, a.arg);
      if g.Value? && v.Value? { VApplySim(ap, vp, ms, fuel, g.v, v.v); }
    }
  }

  /** A branch: project the used fields, then run the body. */
  lemma SimAlt(ap: AProg, vp: VMProg, ms: iset<string>, fuel: nat, t: bool, res: Reg, alts: seq<AConAlt>, i: nat, s: int,
               v: Val, env: Env, regs: Regs, dom: set<int>)
    requires Compiles(ap, vp, ms) && !res.Discard?
    requires i < |alts| && ConBoundOnce(alts) && ConBinders(alts) !! dom && env.Keys <= dom
    requires Shaped(alts[i].body, ms)
    requires s in env && env[s] == v && v.VCon? && |v.args| == |alts[i].args|
    requires Holds(regs, env, Used(AltCode(s, alts[i].args, ToVM(t, res, alts[i].body))))
    ensures Follows(AEval(ap, fuel, BindAll(env, alts[i].args, v.args), alts[i].body),
                    Exec(vp, fuel, AltCode(s, alts[i].args, ToVM(t, res, alts[i].body)), regs),
                    regs, ConBinders(alts), res)
    decreases fuel, 1, alts[i], 0
  {
    var alt := alts[i];
    AltOnce(alts, i);
    hide Compiles, Exec, ToVM, ConBinders, ConBoundOnce, BoundOnce, Binders, AEval, Shaped;
    var body := ToVM(t, res, alt.body);
    var proj := ProjectArgs(s, 0, Used(body), alt.args);
    UsedConcat(proj, body);
    ProjectUses(s, 0, Used(body), alt.args);
    assert s !in alt.args by { assert s in dom; }
    ProjectSim(vp, fuel, s, 0, Used(body), alt.args, v.key, v.args, regs, env);
    assert v.args[0..] == v.args;
    ExecConcat(vp, fuel, proj, body, regs);
    var regs1 := Exec(vp, fuel, proj, regs).v;
    var env1 := BindAll(env, alt.args, v.args);
    BindAllKeys(env, alt.args, v.args);
    var dom1 := dom + ToSet(alt.args);
    assert Binders(alt.body) !! dom1;
    VSim(ap, vp, ms, fuel, t, res, alt.body, env1, regs1, dom1);
    KeptTrans(regs, regs1, Exec(vp, fuel, body, regs1), ToSet(alt.args), Binders(alt.body), ConBinders(alts), res);
  }

  lemma KeptTrans(regs: Regs, regs1: Regs, r: Run<Regs>, xs: set<int>, ys: set<int>, bs: set<int>, res: Reg)
    requires Kept(regs, regs1, xs, Discard) && xs <= bs && ys <= bs
    ensures r.Done? && Kept(regs1, r.v, ys, res) ==> Kept(regs, r.v, bs, res)
  {
  }

  lemma {:induction false} BindAllKeys(env: Env, xs: seq<int>, vs: seq<Val>)
    requires |xs| == |vs|
    ensures BindAll(env, xs, vs).Keys == env.Keys + ToSet(xs)
    decreases |xs|
  {
    if xs != [] {
      BindAllKeys(env[xs[0] := vs[0]], xs[1..], vs[1..]);
      assert ToSet(xs) == {xs[0]} + ToSet(xs[1..]);
      assert env[xs[0] := vs[0]].Keys == env.Keys + {xs[0]};
    }
  }

  lemma FollowsMore(o: Outcome<Val>, r: Run<Regs>, regs: Regs, bs: set<int>, bs': set<int>, res: Reg)
    requires Follows(o, r, regs, bs, res) && bs <= bs'
    ensures Follows(o, r, regs, bs', res)
  {
  }

  lemma SimCase(ap: AProg, vp: VMProg, ms: iset<string>, fuel: nat, t: bool, res: Reg, a: ANF,
                env: Env, regs: Regs, dom: set<int>)
    requires a.AConCase? && Compiles(ap, vp, ms) && Ready(t, res, a, env, regs, dom, ms)
    ensures Follows(AEval(ap, fuel, env, a), Exec(vp, fuel, ToVM(t, res, a), regs), regs, Binders(a), res)
    decreases fuel, 1, a, 0
  {
    hide Compiles;
    var s := a.scr.i;
    if s in env {
      var v := env[s];
      var pick := PickKey(AAltKeys(a.conAlts), v);
      if |a.conAlts| == 1 && a.def.None? {
        if pick.Some? && |a.conAlts[0].args| == |v.args| {
          SimAlt(ap, vp, ms, fuel, t, res, a.conAlts, 0, s, v, env, regs, dom);
          hide Exec, ToVM, AltCode;
          FollowsMore(AEval(ap, fuel, env, a), Exec(vp, fuel, ToVM(t, res, a), regs), regs,
                      ConBinders(a.conAlts), Binders(a), res);
        }
      } else {
        SimSwitch(ap, vp, ms, fuel, t, res, a, env, regs, dom);
      }
    }
  }

  lemma SimSwitch(ap: AProg, vp: VMProg, ms: iset<string>, fuel: nat, t: bool, res: Reg, a: ANF,
                  env: Env, regs: Regs, dom: set<int>)
    requires a.AConCase? && !(|a.conAlts| == 1 && a.def.None?) && a.scr.ALocal? && a.scr.i in env
    requires Compiles(ap, vp, ms) && Ready(t, res, a, env, regs, dom, ms)
    ensures Follows(AEval(ap, fuel, env, a), Exec(vp, fuel, ToVM(t, res, a), regs), regs, Binders(a), res)
    decreases fuel, 1, a, 0, 0
  {
    hide Compiles;
    var s := a.scr.i;
    var v := env[s];
    var inst := ToVM(t, res, a)[0];
    assert ToVM(t, res, a) == [inst] && inst.CASE?;
    UsedOne(inst);
    ExecOne(vp, fuel, inst, regs);
    var pick := PickKey(AAltKeys(a.conAlts), v);
    assert VMKeys(inst.alts) == AAltKeys(a.conAlts);
    assert Step(vp, fuel, inst, regs) ==
           if pick.Some? then Exec(vp, fuel, inst.alts[pick.value].code, regs)
           else if inst.def.Default? then Exec(vp, fuel, inst.def.code, regs) else Wrong;
    hide Exec, Used, VMKeys, AAltKeys, Step, ToVM;
    if pick.Some? {
      var i := pick.value;
      UsedAltAt(inst.alts, i);
      if |a.conAlts[i].args| == |v.args| {
        SimAlt(ap, vp, ms, fuel, t, res, a.conAlts, i, s, v, env, regs, dom);
        FollowsMore(AEval(ap, fuel, env, a), Step(vp, fuel, inst, regs), regs, ConBinders(a.conAlts), Binders(a), res);
      }
    } else if a.def.Some? {
      VSim(ap, vp, ms, fuel, t, res, a.def.value, env, regs, dom);
      FollowsMore(AEval(ap, fuel, env, a), Step(vp, fuel, inst, regs), regs, Binders(a.def.value), Binders(a), res);
    }
  }

  lemma SimConstCase(ap: AProg, vp: VMProg, ms: iset<string>, fuel: nat, t: bool, res: Reg, a: ANF,
                     env: Env, regs: Regs, dom: set<int>)
    requires a.AConstCase? && Compiles(ap, vp, ms) && Ready(t, res, a, env, regs, dom, ms)
    ensures Follows(AEval(ap, fuel, env, a), Exec(vp, fuel, ToVM(t, res, a), regs), regs, Binders(a), res)
    decreases fuel, 1, a, 0
  {
    hide Compiles;
    var s := a.scr.i;
    var inst := ToVM(t, res, a)[0];
    assert ToVM(t, res, a) == [inst] && inst.CONSTCASE?;
    UsedOne(inst);
    ExecOne(vp, fuel, inst, regs);
    if s in env {
      var v := env[s];
      var pick := PickVal(AAltConsts(a.constAlts), v);
      assert VMConsts(inst.constAlts) == AAltConsts(a.constAlts);
      assert Step(vp, fuel, inst, regs) ==
             if pick.Some? then Exec(vp, fuel, inst.constAlts[pick.value].code, regs)
             else if inst.def.Default? then Exec(vp, fuel, inst.def.code, regs) else Wrong;
      hide Exec, Used, VMConsts, AAltConsts, Step, ToVM;
      if pick.Some? {
        var i := pick.value;
        UsedConstAltAt(inst.constAlts, i);
        ConstAltOnce(a.constAlts, i);
        VSim(ap, vp, ms, fuel, t, res, a.constAlts[i].body, env, regs, dom);
        FollowsMore(AEval(ap, fuel, env, a), Step(vp, fuel, inst, regs), regs, Binders(a.constAlts[i].body), Binders(a), res);
      } else if a.def.Some? {
        VSim(ap, vp, ms, fuel, t, res, a.def.value, env, regs, dom);
        FollowsMore(AEval(ap, fuel, env, a), Step(vp, fuel, inst, regs), regs, Binders(a.def.value), Binders(a), res);
      }
    }
  }

  lemma VApplySim(ap: AProg, vp: VMProg, ms: iset<string>, fuel: nat, g: Val, v: Val)
    requires Compiles(ap, vp, ms)
    ensures FollowsVal(AApply(ap, fuel, g, v), VApply(vp, fuel, g, v))
    decreases fuel, 0, 1
  {
    hide Compiles;
    if g.VPap? { VCallSim(ap, vp, ms, fuel, g.n, g.args + [v]); }
  }

  lemma {:induction false} DeclareNothing(p: VMProg, fuel: nat, got: set<int>, vs: seq<int>, regs: Regs)
    ensures Exec(p, fuel, DeclareAll(got, vs), regs) == Done(regs)
    decreases |vs|
  {
    if vs != [] {
      if vs[0] in got { DeclareNothing(p, fuel, got, vs[1..], regs); }
      else {
        var rest := DeclareAll(got + {vs[0]}, vs[1..]);
        DeclareNothing(p, fuel, got + {vs[0]}, vs[1..], regs);
        ExecOne(p, fuel, DECLARE(Loc(vs[0])), regs);
        ExecConcat(p, fuel, [DECLARE(Loc(vs[0]))], rest, regs);
      }
    }
  }

  lemma DeclareVarsExec(p: VMProg, fuel: nat, got: seq<int>, code: seq<VMInst>, regs: Regs)
    ensures Exec(p, fuel, DeclareVars(got, code), regs) == Exec(p, fuel, code, regs)
  {
    hide Exec, DeclareAll;
    var ds := DeclareAll(ToSet(got), FindAll(code));
    DeclareNothing(p, fuel, ToSet(got), FindAll(code), regs);
    ExecConcat(p, fuel, ds + [START], code, regs);
    ExecConcat(p, fuel, ds, [START], regs);
    ExecOne(p, fuel, START, regs);
  }

  /** Register code refines ANF: a call ends as the ANF call does, whenever that
      one is not stuck. */
  lemma VCallSim(ap: AProg, vp: VMProg, ms: iset<string>, fuel: nat, n: Name, vs: seq<Val>)
    requires Compiles(ap, vp, ms)
    ensures FollowsVal(ACall(ap, fuel, n, vs), VCall(vp, fuel, n, vs))
    decreases fuel, 0, 0
  {
    hide Exec, AEval, ToVM, DeclareVars, BindAll, Binders, BoundOnce, FreeVariables, Shaped;
    if n in ap.defs {
      match ap.defs[n]
      case MkAFun(args, body) =>
        if |vs| == |args| && fuel > 0 {
          var env := BindAll(map[], args, vs);
          BindAllKeys(map[], args, vs);
          var code := ToVM(true, RVal, body);
          DeclareVarsExec(vp, fuel - 1, args, code, Regs(env, None));
          VSim(ap, vp, ms, fuel - 1, true, RVal, body, env, Regs(env, None), ToSet(args));
        }
      case MkACon(_, _) =>
      case MkAForeign(_) =>
      case MkAError(expl) =>
        if fuel > 0 {
          DeclareVarsExec(vp, fuel - 1, [], ToVM(true, RVal, expl), Regs(map[], None));
          VSim(ap, vp, ms, fuel - 1, true, RVal, expl, map[], Regs(map[], None), {});
        }
    }
  }
}

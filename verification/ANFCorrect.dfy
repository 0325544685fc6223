/** Conversion to administrative normal form preserves meaning: the same outcome,
    whatever it is, for the same fuel. */
module ANFCorrect {
  import opened Base
  import opened LiftedSyntax
  import opened LiftedEval
  import opened ANFSyntax
  import opened ANFEval
  import opened ANFConvert

  /** `ap` is the conversion of `lp`. */
  ghost predicate Converts(lp: LProg, ap: AProg) {
    && ap.prim == lp.prim
    && (forall n :: n in ap.defs <==> n in lp.defs)
    && (forall n :: n in lp.defs ==> LScopedDef(lp.defs[n]) && ap.defs[n] == ToANF(lp.defs[n]))
  }

  ghost predicate Agree(env: Env, vs: seq<int>, lenv: seq<Val>) {
    |vs| == |lenv| && forall j :: 0 <= j < |vs| ==> vs[j] in env && env[vs[j]] == lenv[j]
  }

  ghost predicate Below(vs: seq<int>, k: int) { forall j :: 0 <= j < |vs| ==> vs[j] < k }

  ghost predicate VarsBelow(vs: seq<AVar>, k: int) {
    forall j :: 0 <= j < |vs| && vs[j].ALocal? ==> vs[j].i < k
  }

  // ----- Environments -----

  lemma {:induction false} LookAllGrow(env: Env, k: int, v: Val, vs: seq<AVar>)
    requires VarsBelow(vs, k)
    ensures LookAll(env[k := v], vs) == LookAll(env, vs)
  {
    if vs != [] { LookAllGrow(env, k, v, vs[1..]); }
  }

  lemma {:induction false} LookAllSnoc(env: Env, vs: seq<AVar>, ws: seq<Val>, v: AVar, w: Val)
    requires LookAll(env, vs) == Value(ws) && Look(env, v) == Value(w)
    ensures LookAll(env, vs + [v]) == Value(ws + [w])
  {
    if vs != [] {
      assert (vs + [v])[1..] == vs[1..] + [v];
      var rest := LookAll(env, vs[1..]);
      LookAllSnoc(env, vs[1..], rest.v, v, w);
      assert ws + [w] == [ws[0]] + (rest.v + [w]);
    } else {
      assert vs + [v] == [v] && ws + [w] == [w] && [w] + [] == [w];
      assert LookAll(env, [v][1..]) == Value([]);
    }
  }

  lemma {:induction false} BindAllOther(env: Env, xs: seq<int>, vs: seq<Val>, y: int)
    requires |xs| == |vs| && y !in xs
    ensures (y in BindAll(env, xs, vs) <==> y in env) && (y in env ==> BindAll(env, xs, vs)[y] == env[y])
    decreases |xs|
  {
    if xs != [] { BindAllOther(env[xs[0] := vs[0]], xs[1..], vs[1..], y); }
  }

  lemma {:induction false} BindAllAt(env: Env, xs: seq<int>, vs: seq<Val>, i: nat)
    requires |xs| == |vs| && Distinct(xs) && i < |xs|
    ensures xs[i] in BindAll(env, xs, vs) && BindAll(env, xs, vs)[xs[i]] == vs[i]
    decreases |xs|
  {
    if i == 0 {
      BindAllOther(env[xs[0] := vs[0]], xs[1..], vs[1..], xs[0]);
    } else {
      BindAllAt(env[xs[0] := vs[0]], xs[1..], vs[1..], i - 1);
    }
  }

  lemma AgreeLet(env: Env, vs: seq<int>, lenv: seq<Val>, k: int, v: Val)
    requires Agree(env, vs, lenv) && Below(vs, k)
    ensures Agree(env[k := v], [k] + vs, [v] + lenv) && Below([k] + vs, k + 1)
    ensures Agree(env[k := v], vs, lenv)
  {
  }

  lemma AgreeAlt(env: Env, vs: seq<int>, lenv: seq<Val>, k: int, ws: seq<Val>)
    requires Agree(env, vs, lenv) && Below(vs, k)
    ensures var xs := Fresh(k, |ws|);
            Agree(BindAll(env, xs, ws), xs + vs, ws + lenv) && Below(xs + vs, k + |ws|)
  {
    var xs := Fresh(k, |ws|);
    var env' := BindAll(env, xs, ws);
    forall j | 0 <= j < |xs + vs| ensures (xs + vs)[j] in env' && env'[(xs + vs)[j]] == (ws + lenv)[j] {
      if j < |xs| { BindAllAt(env, xs, ws, j); } else { BindAllOther(env, xs, ws, vs[j - |xs|]); }
    }
  }

  /** The position among the parameters of the `j`th variable in scope. */
  function ParamOf(n: nat, m: nat, j: nat): nat
    requires j < n + m
  {
    if j < m then n + (m - 1 - j) else j - m
  }

  function Params(n: nat, m: nat): (r: seq<int>)
    ensures |r| == n + m
  {
    Fresh(0, n) + Reverse(Fresh(n, m))
  }

  lemma ParamsDistinct(n: nat, m: nat)
    ensures Distinct(Params(n, m)) && Below(Fresh(n, m) + Fresh(0, n), n + m)
  {
    assert forall i :: 0 <= i < n ==> Params(n, m)[i] == i;
    assert forall i :: n <= i < n + m ==> Params(n, m)[i] == n + (m - 1 - (i - n));
  }

  lemma ParamAt(n: nat, m: nat, ws: seq<Val>, j: nat)
    requires |ws| == n + m && j < n + m
    ensures (Fresh(n, m) + Fresh(0, n))[j] == Params(n, m)[ParamOf(n, m, j)]
    ensures EntryEnv(n, ws)[j] == ws[ParamOf(n, m, j)]
  {
  }

  lemma AgreeEntry(n: nat, m: nat, ws: seq<Val>)
    requires |ws| == n + m
    ensures Below(Fresh(n, m) + Fresh(0, n), n + m)
    ensures Agree(BindAll(map[], Params(n, m), ws), Fresh(n, m) + Fresh(0, n), EntryEnv(n, ws))
  {
    ParamsDistinct(n, m);
    var vs := Fresh(n, m) + Fresh(0, n);
    var env := BindAll(map[], Params(n, m), ws);
    forall j | 0 <= j < n + m ensures vs[j] in env && env[vs[j]] == EntryEnv(n, ws)[j] {
      ParamAt(n, m, ws, j);
      hide *;
      BindAllAt(map[], Params(n, m), ws, ParamOf(n, m, j));
    }
  }

  // ----- Heads -----

  /** What a head does to the values of its arguments. */
  ghost function HeadEval(p: AProg, fuel: nat, h: Head, ws: seq<Val>): Outcome<Val> {
    match h
    case HCall(n) => ACall(p, fuel, n, ws)
    case HPap(n, m) => Value(VPap(n, m, ws))
    case HApp => if |ws| == 2 then AApply(p, fuel, ws[0], ws[1]) else Crash(CANT_HAPPEN_APP)
    case HCon(n, t) => Value(VCon(KeyOf(n, t), ws))
    case HOp(op, arity) => if |ws| == arity then p.prim(OpKey(op), ws) else Crash(CANT_HAPPEN_OP)
    case HExt(n) => p.prim(ExtKey(n), ws)
  }

  lemma BuildEval(p: AProg, fuel: nat, env: Env, h: Head, vs: seq<AVar>, ws: seq<Val>)
    requires LookAll(env, vs) == Value(ws)
    ensures AEval(p, fuel, env, Build(h, vs)) == HeadEval(p, fuel, h, ws)
  {
    hide ACall, AApply;
    if h.HApp? && |vs| == 2 {
      assert LookAll(env, vs[1..]).Value? && vs[1..][0] == vs[1];
    }
  }

  /** Feed a list of outcomes, appended to earlier values, to a head. */
  ghost function ThenHead(p: AProg, fuel: nat, h: Head, done: seq<Val>, r: Outcome<seq<Val>>): Outcome<Val> {
    var vs :- r;
    HeadEval(p, fuel, h, done + vs)
  }

  /** Only a variable converts to a variable, only an erased term to an erased one. */
  lemma ConvTrivial(vs: seq<int>, k: int, l: Lifted)
    requires LScoped(l, |vs|)
    ensures Conv(vs, k, l).0.AV? ==> l.LLocal?
    ensures Conv(vs, k, l).0.AErased? ==> l.LErased?
  {
    match l
    case LAppName(n, args) => ArgsNotTrivial(vs, k, args, HCall(n));
    case LUnderApp(n, m, args) => ArgsNotTrivial(vs, k, args, HPap(n, m));
    case LApp(c, a) =>
      var f' := Conv(vs, k, c);
      var a' := Conv(vs, f'.1, a);
      DoBindNotTrivial([], BindArgs(a'.1, [f'.0, a'.0]).0, HApp);
    case LCon(n, t, args) => ArgsNotTrivial(vs, k, args, HCon(n, t));
    case LOp(op, arity, args) => ArgsNotTrivial(vs, k, args, HOp(op, arity));
    case LExtPrim(p, args) => ArgsNotTrivial(vs, k, args, HExt(p));
    case _ =>
  }

  lemma ArgsNotTrivial(vs: seq<int>, k: int, args: seq<Lifted>, h: Head)
    requires forall i :: 0 <= i < |args| ==> LScoped(args[i], |vs|)
    ensures !ConvArgs(vs, k, args, h).0.AV? && !ConvArgs(vs, k, args, h).0.AErased?
  {
    var as' := ConvList(vs, k, args);
    DoBindNotTrivial([], BindArgs(as'.1, as'.0).0, h);
  }

  lemma {:induction false} DoBindNotTrivial(vs: seq<AVar>, bs: seq<Bound>, h: Head)
    ensures !DoBind(vs, bs, h).AV? && !DoBind(vs, bs, h).AErased?
    decreases |bs|
  {
    if bs != [] { DoBindNotTrivial(vs + [bs[0].0], bs[1..], h); }
  }

  // ----- The conversion -----

  /** Evaluating the bindings made for some arguments, then the head. `parent`
      is the term the arguments are part of. */
  lemma {:induction false} DoBindEval(lp: LProg, ap: AProg, fuel: nat, parent: Lifted, env: Env, vs: seq<int>,
                                      lenv: seq<Val>, k: int, ls: seq<Lifted>, m: int,
                                      acc: seq<AVar>, done: seq<Val>, h: Head)
    requires Converts(lp, ap) && Agree(env, vs, lenv) && Below(vs, k)
    requires forall i :: 0 <= i < |ls| ==> LScoped(ls[i], |vs|) && (parent decreases to ls[i])
    requires k <= m && ConvList(vs, k, ls).1 <= m
    requires LookAll(env, acc) == Value(done) && VarsBelow(acc, m)
    ensures AEval(ap, fuel, env, DoBind(acc, BindArgs(m, ConvList(vs, k, ls).0).0, h)) ==
            ThenHead(ap, fuel, h, done, LEvalList(lp, fuel, lenv, ls))
    decreases fuel, 1, parent, 0, |ls|
  {
    hide HeadEval, Converts, Agree, Below, LScoped, AEval, LEval, LEvalList, ThenHead, DoBind, BindArgs, Conv, ConvList, LookAll, VarsBelow;
    if ls == [] {
      BuildEval(ap, fuel, env, h, acc, done);
      NoMore(lp, ap, fuel, vs, lenv, k, m, acc, done, h);
    } else {
      var a := Conv(vs, k, ls[0]);
      var t := ConvList(vs, a.1, ls[1..]);
      ConvListStep(vs, k, ls);
      BelowMore(vs, k, a.1);
      ConvEval(lp, ap, fuel, env, vs, lenv, k, ls[0]);
      ConvTrivial(vs, k, ls[0]);
      ThenStep(lp, ap, fuel, lenv, ls, done, h);
      var v := LEval(lp, fuel, lenv, ls[0]);
      if a.0.AV? || a.0.AErased? {
        var x := if a.0.AV? then a.0.v else AErasedVar;
        BindTrivial(m, a.0, t.0, acc, h);
        LocalValue(lp, fuel, env, vs, lenv, ls[0], k);
        TrivialValue(ap, fuel, env, a.0);
        ConvLocal(vs, k, ls[0]);
        LookAllSnoc(env, acc, done, x, v.v);
        SnocBelow(acc, x, m);
        DoBindEval(lp, ap, fuel, parent, env, vs, lenv, a.1, ls[1..], m, acc + [x], done + [v.v], h);
      } else {
        BindLet(m, a.0, t.0, acc, h);
        LetEval(ap, fuel, env, m, a.0, DoBind(acc + [ALocal(m)], BindArgs(m + 1, t.0).0, h));
        if v.Value? {
          var env' := env[m := v.v];
          AgreeMore(env, vs, lenv, m, v.v, k);
          LookAllGrow(env, m, v.v, acc);
          FreshLook(env, m, v.v);
          LookAllSnoc(env', acc, done, ALocal(m), v.v);
          MoreBelow(acc, m);
          SnocBelow(acc, ALocal(m), m + 1);
          DoBindEval(lp, ap, fuel, parent, env', vs, lenv, a.1, ls[1..], m + 1, acc + [ALocal(m)], done + [v.v], h);
        }
      }
    }
  }

  lemma NoMore(lp: LProg, ap: AProg, fuel: nat, vs: seq<int>, lenv: seq<Val>, k: int, m: int, acc: seq<AVar>, done: seq<Val>, h: Head)
    ensures DoBind(acc, BindArgs(m, ConvList(vs, k, []).0).0, h) == Build(h, acc)
    ensures ThenHead(ap, fuel, h, done, LEvalList(lp, fuel, lenv, [])) == HeadEval(ap, fuel, h, done)
  {
    hide HeadEval;
    assert done + [] == done;
  }

  lemma ConvListStep(vs: seq<int>, k: int, ls: seq<Lifted>)
    requires ls != [] && forall i :: 0 <= i < |ls| ==> LScoped(ls[i], |vs|)
    ensures
      var a := Conv(vs, k, ls[0]);
      var t := ConvList(vs, a.1, ls[1..]);
      ConvList(vs, k, ls) == ([a.0] + t.0, t.1)
  {
    hide Conv, LScoped;
  }

  lemma ThenStep(lp: LProg, ap: AProg, fuel: nat, lenv: seq<Val>, ls: seq<Lifted>, done: seq<Val>, h: Head)
    requires ls != []
    ensures ThenHead(ap, fuel, h, done, LEvalList(lp, fuel, lenv, ls)) ==
      var v :- LEval(lp, fuel, lenv, ls[0]);
      ThenHead(ap, fuel, h, done + [v], LEvalList(lp, fuel, lenv, ls[1..]))
  {
    hide HeadEval, LEval;
    var v, rest := LEval(lp, fuel, lenv, ls[0]), LEvalList(lp, fuel, lenv, ls[1..]);
    if v.Value? && rest.Value? { assert (done + [v.v]) + rest.v == done + ([v.v] + rest.v); }
  }

  lemma BindTrivial(m: int, a: ANF, t: seq<ANF>, acc: seq<AVar>, h: Head)
    requires a.AV? || a.AErased?
    ensures DoBind(acc, BindArgs(m, [a] + t).0, h) ==
            DoBind(acc + [if a.AV? then a.v else AErasedVar], BindArgs(m, t).0, h)
  {
    assert ([a] + t)[1..] == t;
    assert BindArgs(m, [a] + t).0[1..] == BindArgs(m, t).0;
  }

  lemma BindLet(m: int, a: ANF, t: seq<ANF>, acc: seq<AVar>, h: Head)
    requires !a.AV? && !a.AErased?
    ensures DoBind(acc, BindArgs(m, [a] + t).0, h) == ALet(m, a, DoBind(acc + [ALocal(m)], BindArgs(m + 1, t).0, h))
  {
    assert ([a] + t)[1..] == t;
    assert BindArgs(m, [a] + t).0[1..] == BindArgs(m + 1, t).0;
  }

  lemma LetEval(ap: AProg, fuel: nat, env: Env, m: int, a: ANF, b: ANF)
    ensures AEval(ap, fuel, env, ALet(m, a, b)) ==
      var v :- AEval(ap, fuel, env, a);
      AEval(ap, fuel, env[m := v], b)
  {
  }

  lemma TrivialValue(ap: AProg, fuel: nat, env: Env, a: ANF)
    ensures a.AV? ==> AEval(ap, fuel, env, a) == Look(env, a.v)
    ensures a.AErased? ==> AEval(ap, fuel, env, a) == Look(env, AErasedVar)
  {
  }

  lemma ConvLocal(vs: seq<int>, k: int, l: Lifted)
    requires LScoped(l, |vs|)
    ensures l.LLocal? ==> Conv(vs, k, l).0 == AV(ALocal(vs[l.i]))
  {
  }

  lemma FreshLook(env: Env, m: int, v: Val)
    ensures Look(env[m := v], ALocal(m)) == Value(v)
  {
  }

  lemma SnocBelow(acc: seq<AVar>, x: AVar, m: int)
    requires VarsBelow(acc, m) && (x.ALocal? ==> x.i < m)
    ensures VarsBelow(acc + [x], m)
  {
  }

  lemma MoreBelow(acc: seq<AVar>, m: int)
    requires VarsBelow(acc, m)
    ensures VarsBelow(acc, m + 1)
  {
  }

  lemma BelowMore(vs: seq<int>, k: int, m: int)
    requires Below(vs, k) && k <= m
    ensures Below(vs, m)
  {
  }

  lemma AgreeMore(env: Env, vs: seq<int>, lenv: seq<Val>, m: int, v: Val, k: int)
    requires Agree(env, vs, lenv) && Below(vs, k) && k <= m
    ensures Agree(env[m := v], vs, lenv)
  {
  }

  lemma LocalValue(lp: LProg, fuel: nat, env: Env, vs: seq<int>, lenv: seq<Val>, l: Lifted, k: int)
    requires Agree(env, vs, lenv) && LScoped(l, |vs|) && Below(vs, k)
    ensures l.LLocal? ==> LEval(lp, fuel, lenv, l).Value? && vs[l.i] < k
    ensures l.LErased? ==> LEval(lp, fuel, lenv, l) == Value(VErased)
  {
  }

  /** The converted term evaluates to exactly what the lifted term does. */
  lemma {:induction false} ConvEval(lp: LProg, ap: AProg, fuel: nat, env: Env, vs: seq<int>, lenv: seq<Val>,
                                    k: int, l: Lifted)
    requires Converts(lp, ap) && Agree(env, vs, lenv) && Below(vs, k) && LScoped(l, |vs|)
    ensures AEval(ap, fuel, env, Conv(vs, k, l).0) == LEval(lp, fuel, lenv, l)
    decreases fuel, 1, l, 2
  {
    match l
    case LLocal(_) =>
    case LAppName(n, args) => ConvHead(lp, ap, fuel, env, vs, lenv, k, l, args, HCall(n));
    case LUnderApp(n, m, args) => ConvHead(lp, ap, fuel, env, vs, lenv, k, l, args, HPap(n, m));
    case LApp(_, _) => ConvApp(lp, ap, fuel, env, vs, lenv, k, l);
    case LLet(_, e, b) =>
      ConvEval(lp, ap, fuel, env, vs, lenv, k + 1, e);
      var v := LEval(lp, fuel, lenv, e);
      if v.Value? {
        AgreeLet(env, vs, lenv, k, v.v);
        ConvEval(lp, ap, fuel, env[k := v.v], [k] + vs, [v.v] + lenv, Conv(vs, k + 1, e).1, b);
      }
    case LCon(n, t, args) => ConvHead(lp, ap, fuel, env, vs, lenv, k, l, args, HCon(n, t));
    case LOp(op, arity, args) => ConvHead(lp, ap, fuel, env, vs, lenv, k, l, args, HOp(op, arity));
    case LExtPrim(p, args) => ConvHead(lp, ap, fuel, env, vs, lenv, k, l, args, HExt(p));
    case LConCase(_, _, _) => ConvConCase(lp, ap, fuel, env, vs, lenv, k, l);
    case LConstCase(_, _, _) => ConvConstCase(lp, ap, fuel, env, vs, lenv, k, l);
    case LPrimVal(_) =>
    case LErased =>
    case LCrash(_) =>
  }

  /** The head under which a lifted term's arguments are converted. */
  predicate HeadOf(l: Lifted, args: seq<Lifted>, h: Head) {
    match l
    case LAppName(n, as') => h == HCall(n) && args == as'
    case LUnderApp(n, m, as') => h == HPap(n, m) && args == as'
    case LCon(n, t, as') => h == HCon(n, t) && args == as'
    case LOp(op, k, as') => h == HOp(op, k) && args == as'
    case LExtPrim(p, as') => h == HExt(p) && args == as'
    case _ => false
  }

  lemma ConvHead(lp: LProg, ap: AProg, fuel: nat, env: Env, vs: seq<int>, lenv: seq<Val>, k: int,
                 l: Lifted, args: seq<Lifted>, h: Head)
    requires Converts(lp, ap) && Agree(env, vs, lenv) && Below(vs, k) && LScoped(l, |vs|)
    requires HeadOf(l, args, h)
    ensures AEval(ap, fuel, env, Conv(vs, k, l).0) == LEval(lp, fuel, lenv, l)
    decreases fuel, 1, l, 1
  {
    var as' := ConvList(vs, k, args);
    DoBindEval(lp, ap, fuel, l, env, vs, lenv, k, args, as'.1, [], [], h);
    assert Conv(vs, k, l).0 == DoBind([], BindArgs(as'.1, as'.0).0, h);
    hide Conv, ConvList, Agree, Below, DoBind, BindArgs;
    var r := LEvalList(lp, fuel, lenv, args);
    if r.Value? {
      assert [] + r.v == r.v;
      if l.LAppName? { CallConv(lp, ap, fuel, l.n, r.v); }
    }
  }

  lemma ConvApp(lp: LProg, ap: AProg, fuel: nat, env: Env, vs: seq<int>, lenv: seq<Val>, k: int, l: Lifted)
    requires Converts(lp, ap) && Agree(env, vs, lenv) && Below(vs, k) && LScoped(l, |vs|) && l.LApp?
    ensures AEval(ap, fuel, env, Conv(vs, k, l).0) == LEval(lp, fuel, lenv, l)
    decreases fuel, 1, l, 1
  {
    var ls := [l.closure, l.arg];
    var f' := Conv(vs, k, l.closure);
    var a' := Conv(vs, f'.1, l.arg);
    ListOfTwo(vs, k, l.closure, l.arg);
    DoBindEval(lp, ap, fuel, l, env, vs, lenv, k, ls, a'.1, [], [], HApp);
    assert Conv(vs, k, l).0 == DoBind([], BindArgs(a'.1, [f'.0, a'.0]).0, HApp);
    hide Conv, ConvList, Agree, Below, DoBind, BindArgs;
    EvalTwo(lp, fuel, lenv, l.closure, l.arg);
    var g, v := LEval(lp, fuel, lenv, l.closure), LEval(lp, fuel, lenv, l.arg);
    if g.Value? && v.Value? {
      assert [] + [g.v, v.v] == [g.v, v.v];
      ApplyConv(lp, ap, fuel, g.v, v.v);
    }
  }

  lemma ListOfTwo(vs: seq<int>, k: int, c: Lifted, a: Lifted)
    requires LScoped(c, |vs|) && LScoped(a, |vs|)
    ensures var f' := Conv(vs, k, c); var a' := Conv(vs, f'.1, a);
            ConvList(vs, k, [c, a]) == ([f'.0, a'.0], a'.1)
  {
    hide Conv;
    var f' := Conv(vs, k, c);
    var a' := Conv(vs, f'.1, a);
    assert [c, a][1..] == [a] && [a][1..] == [];
    assert ConvList(vs, f'.1, [a]) == ([a'.0] + [], a'.1);
    assert [f'.0] + ([a'.0] + []) == [f'.0, a'.0];
  }

  lemma EvalTwo(lp: LProg, fuel: nat, lenv: seq<Val>, c: Lifted, a: Lifted)
    ensures LEvalList(lp, fuel, lenv, [c, a]) ==
            (var g :- LEval(lp, fuel, lenv, c); var v :- LEval(lp, fuel, lenv, a); Value([g, v]))
  {
    hide LEval;
    assert [c, a][1..] == [a] && [a][1..] == [];
    assert LEvalList(lp, fuel, lenv, []) == Value([]);
    var g, v := LEval(lp, fuel, lenv, c), LEval(lp, fuel, lenv, a);
    if v.Value? {
      assert [v.v] + [] == [v.v];
      assert LEvalList(lp, fuel, lenv, [a]) == Value([v.v]);
      if g.Value? { assert [g.v] + [v.v] == [g.v, v.v]; }
    }
  }

  lemma {:induction false} ConvAltAt(vs: seq<int>, k: int, alts: seq<LiftedConAlt>, i: nat) returns (ki: int)
    requires forall i :: 0 <= i < |alts| ==> LScoped(alts[i].body, |alts[i].args| + |vs|)
    requires i < |alts|
    ensures ki >= k
    ensures var xs := Fresh(ki, |alts[i].args|);
            ConvConAlts(vs, k, alts).0[i] ==
            MkAConAlt(alts[i].con, alts[i].tag, xs, Conv(xs + vs, ki + |alts[i].args|, alts[i].body).0)
    decreases |alts|
  {
    hide Conv, LScoped;
    if i == 0 { ki := k; }
    else {
      var xs := Fresh(k, |alts[0].args|);
      ki := ConvAltAt(vs, Conv(xs + vs, k + |alts[0].args|, alts[0].body).1, alts[1..], i - 1);
    }
  }

  lemma {:induction false} ConvConstAltAt(vs: seq<int>, k: int, alts: seq<LiftedConstAlt>, i: nat) returns (ki: int)
    requires forall i :: 0 <= i < |alts| ==> LScoped(alts[i].body, |vs|)
    requires i < |alts|
    ensures ki >= k
    ensures ConvConstAlts(vs, k, alts).0[i] == MkAConstAlt(alts[i].c, Conv(vs, ki, alts[i].body).0)
    decreases |alts|
  {
    hide Conv, LScoped;
    if i == 0 { ki := k; }
    else { ki := ConvConstAltAt(vs, Conv(vs, k, alts[0].body).1, alts[1..], i - 1); }
  }

  lemma ConvKeys(vs: seq<int>, k: int, alts: seq<LiftedConAlt>)
    requires forall i :: 0 <= i < |alts| ==> LScoped(alts[i].body, |alts[i].args| + |vs|)
    ensures AAltKeys(ConvConAlts(vs, k, alts).0) == LAltKeys(alts)
  {
    hide ConvConAlts;
    forall i | 0 <= i < |alts|
      ensures AAltKeys(ConvConAlts(vs, k, alts).0)[i] == LAltKeys(alts)[i]
    {
      var _ := ConvAltAt(vs, k, alts, i);
    }
  }

  lemma ConvConsts(vs: seq<int>, k: int, alts: seq<LiftedConstAlt>)
    requires forall i :: 0 <= i < |alts| ==> LScoped(alts[i].body, |vs|)
    ensures AAltConsts(ConvConstAlts(vs, k, alts).0) == LAltConsts(alts)
  {
    hide ConvConstAlts;
    forall i | 0 <= i < |alts|
      ensures AAltConsts(ConvConstAlts(vs, k, alts).0)[i] == LAltConsts(alts)[i]
    {
      var _ := ConvConstAltAt(vs, k, alts, i);
    }
  }

  /** What a lifted case does once its scrutinee is known. */
  ghost function LBranch(lp: LProg, fuel: nat, lenv: seq<Val>, l: Lifted, v: Val): Outcome<Val>
    requires l.LConCase? || l.LConstCase?
  {
    if l.LConCase? then
      var pick := PickKey(LAltKeys(l.conAlts), v);
      if pick.Some? then
        var alt := l.conAlts[pick.value];
        if |alt.args| == |v.args| then LEval(lp, fuel, v.args + lenv, alt.body) else Stuck
      else if l.def.Some? then LEval(lp, fuel, lenv, l.def.value) else Stuck
    else
      var pick := PickVal(LAltConsts(l.constAlts), v);
      if pick.Some? then LEval(lp, fuel, lenv, l.constAlts[pick.value].body)
      else if l.def.Some? then LEval(lp, fuel, lenv, l.def.value) else Stuck
  }

  lemma LCaseEval(lp: LProg, fuel: nat, lenv: seq<Val>, l: Lifted)
    requires l.LConCase? || l.LConstCase?
    ensures LEval(lp, fuel, lenv, l) ==
      var v :- LEval(lp, fuel, lenv, l.scr);
      LBranch(lp, fuel, lenv, l, v)
  {
  }

  lemma ConCaseShape(vs: seq<int>, k: int, l: Lifted)
    requires l.LConCase? && LScoped(l, |vs|)
    ensures
      var s := Conv(vs, k, l.scr);
      var alts := ConvConAlts(vs, s.1, l.conAlts);
      var d := ConvOpt(vs, alts.1, l.def);
      && k <= s.1 <= alts.1 <= d.1
      && Conv(vs, k, l).0 == if s.0.AV? then AConCase(s.0.v, alts.0, d.0)
                             else ALet(d.1, s.0, AConCase(ALocal(d.1), alts.0, d.0))
  {
  }

  lemma ConstCaseShape(vs: seq<int>, k: int, l: Lifted)
    requires l.LConstCase? && LScoped(l, |vs|)
    ensures
      var s := Conv(vs, k, l.scr);
      var alts := ConvConstAlts(vs, s.1, l.constAlts);
      var d := ConvOpt(vs, alts.1, l.def);
      && k <= s.1 <= alts.1 <= d.1
      && Conv(vs, k, l).0 == if s.0.AV? then AConstCase(s.0.v, alts.0, d.0)
                             else ALet(d.1, s.0, AConstCase(ALocal(d.1), alts.0, d.0))
  {
  }

  /** Once the scrutinee is in a variable, the converted alternatives do what the
      lifted ones do. */
  lemma AltsEval(lp: LProg, ap: AProg, fuel: nat, env: Env, vs: seq<int>, lenv: seq<Val>, l: Lifted,
                 x: AVar, v: Val, k1: int, k2: int)
    requires l.LConCase? && LScoped(l, |vs|)
    requires Converts(lp, ap) && Agree(env, vs, lenv) && Below(vs, k1) && k1 <= k2
    requires Look(env, x) == Value(v)
    ensures AEval(ap, fuel, env, AConCase(x, ConvConAlts(vs, k1, l.conAlts).0, ConvOpt(vs, k2, l.def).0)) ==
            LBranch(lp, fuel, lenv, l, v)
    decreases fuel, 1, l, 0
  {
    hide Converts, ConvConAlts, Conv, AAltKeys, LAltKeys;
    ConvKeys(vs, k1, l.conAlts);
    var pick := PickKey(LAltKeys(l.conAlts), v);
    if pick.Some? {
      var alt := l.conAlts[pick.value];
      var ki := ConvAltAt(vs, k1, l.conAlts, pick.value);
      if |alt.args| == |v.args| {
        AgreeAlt(env, vs, lenv, ki, v.args);
        var xs := Fresh(ki, |alt.args|);
        ConvEval(lp, ap, fuel, BindAll(env, xs, v.args), xs + vs, v.args + lenv, ki + |alt.args|, alt.body);
      }
    } else if l.def.Some? {
      ConvEval(lp, ap, fuel, env, vs, lenv, k2, l.def.value);
    }
  }

  lemma ConstAltsEval(lp: LProg, ap: AProg, fuel: nat, env: Env, vs: seq<int>, lenv: seq<Val>, l: Lifted,
                      x: AVar, v: Val, k1: int, k2: int)
    requires l.LConstCase? && LScoped(l, |vs|)
    requires Converts(lp, ap) && Agree(env, vs, lenv) && Below(vs, k1) && k1 <= k2
    requires Look(env, x) == Value(v)
    ensures AEval(ap, fuel, env, AConstCase(x, ConvConstAlts(vs, k1, l.constAlts).0, ConvOpt(vs, k2, l.def).0)) ==
            LBranch(lp, fuel, lenv, l, v)
    decreases fuel, 1, l, 0
  {
    hide Converts, ConvConstAlts, Conv, AAltConsts, LAltConsts;
    ConvConsts(vs, k1, l.constAlts);
    var pick := PickVal(LAltConsts(l.constAlts), v);
    if pick.Some? {
      var ki := ConvConstAltAt(vs, k1, l.constAlts, pick.value);
      ConvEval(lp, ap, fuel, env, vs, lenv, ki, l.constAlts[pick.value].body);
    } else if l.def.Some? {
      ConvEval(lp, ap, fuel, env, vs, lenv, k2, l.def.value);
    }
  }

  lemma ConvConCase(lp: LProg, ap: AProg, fuel: nat, env: Env, vs: seq<int>, lenv: seq<Val>, k: int, l: Lifted)
    requires Converts(lp, ap) && Agree(env, vs, lenv) && Below(vs, k) && LScoped(l, |vs|) && l.LConCase?
    ensures AEval(ap, fuel, env, Conv(vs, k, l).0) == LEval(lp, fuel, lenv, l)
    decreases fuel, 1, l, 1
  {
    hide AEval, LEval, Conv, ConvConAlts, ConvOpt, LBranch, Converts, Agree, Below;
    ConCaseShape(vs, k, l);
    LCaseEval(lp, fuel, lenv, l);
    var s := Conv(vs, k, l.scr);
    var alts := ConvConAlts(vs, s.1, l.conAlts);
    var d := ConvOpt(vs, alts.1, l.def);
    ConvEval(lp, ap, fuel, env, vs, lenv, k, l.scr);
    BelowMore(vs, k, s.1);
    var v := LEval(lp, fuel, lenv, l.scr);
    if s.0.AV? {
      ConvTrivial(vs, k, l.scr);
      LocalValue(lp, fuel, env, vs, lenv, l.scr, k);
      TrivialValue(ap, fuel, env, s.0);
      AltsEval(lp, ap, fuel, env, vs, lenv, l, s.0.v, v.v, s.1, alts.1);
    } else {
      LetEval(ap, fuel, env, d.1, s.0, Conv(vs, k, l).0.body);
      if v.Value? {
        AgreeMore(env, vs, lenv, d.1, v.v, k);
        FreshLook(env, d.1, v.v);
        AltsEval(lp, ap, fuel, env[d.1 := v.v], vs, lenv, l, ALocal(d.1), v.v, s.1, alts.1);
      }
    }
  }

  lemma ConvConstCase(lp: LProg, ap: AProg, fuel: nat, env: Env, vs: seq<int>, lenv: seq<Val>, k: int, l: Lifted)
    requires Converts(lp, ap) && Agree(env, vs, lenv) && Below(vs, k) && LScoped(l, |vs|) && l.LConstCase?
    ensures AEval(ap, fuel, env, Conv(vs, k, l).0) == LEval(lp, fuel, lenv, l)
    decreases fuel, 1, l, 1
  {
    hide AEval, LEval, Conv, ConvConstAlts, ConvOpt, LBranch, Converts, Agree, Below;
    ConstCaseShape(vs, k, l);
    LCaseEval(lp, fuel, lenv, l);
    var s := Conv(vs, k, l.scr);
    var alts := ConvConstAlts(vs, s.1, l.constAlts);
    var d := ConvOpt(vs, alts.1, l.def);
    ConvEval(lp, ap, fuel, env, vs, lenv, k, l.scr);
    BelowMore(vs, k, s.1);
    var v := LEval(lp, fuel, lenv, l.scr);
    if s.0.AV? {
      ConvTrivial(vs, k, l.scr);
      LocalValue(lp, fuel, env, vs, lenv, l.scr, k);
      TrivialValue(ap, fuel, env, s.0);
      ConstAltsEval(lp, ap, fuel, env, vs, lenv, l, s.0.v, v.v, s.1, alts.1);
    } else {
      LetEval(ap, fuel, env, d.1, s.0, Conv(vs, k, l).0.body);
      if v.Value? {
        AgreeMore(env, vs, lenv, d.1, v.v, k);
        FreshLook(env, d.1, v.v);
        ConstAltsEval(lp, ap, fuel, env[d.1 := v.v], vs, lenv, l, ALocal(d.1), v.v, s.1, alts.1);
      }
    }
  }

  lemma ApplyConv(lp: LProg, ap: AProg, fuel: nat, g: Val, v: Val)
    requires Converts(lp, ap)
    ensures AApply(ap, fuel, g, v) == LApply(lp, fuel, g, v)
    decreases fuel, 0, 1
  {
    hide Converts;
    if g.VPap? { CallConv(lp, ap, fuel, g.n, g.args + [v]); }
  }

  /** A converted function, called with `args` then the scope reversed, returns
      what the lifted function returns. */
  lemma CallConv(lp: LProg, ap: AProg, fuel: nat, n: Name, ws: seq<Val>)
    requires Converts(lp, ap)
    ensures ACall(ap, fuel, n, ws) == LCall(lp, fuel, n, ws)
    decreases fuel, 0, 0
  {
    hide Fresh, Reverse, BindAll, EntryEnv, Conv, AEval, LEval;
    if n in lp.defs && fuel > 0 {
      match lp.defs[n]
      case MkLFun(args, scope, body) =>
        if |ws| == |args| + |scope| {
          AgreeEntry(|args|, |scope|, ws);
          var iargs, iscope := Fresh(0, |args|), Fresh(|args|, |scope|);
          ConvEval(lp, ap, fuel - 1, BindAll(map[], Params(|args|, |scope|), ws), iscope + iargs,
                   EntryEnv(|args|, ws), |args| + |scope|, body);
        }
      case MkLError(expl) => ConvEval(lp, ap, fuel - 1, map[], [], [], 0, expl);
      case _ =>
    }
  }
}

/** Renaming a term and its environment alike does not change what it computes.
    Closures hold terms, so results agree up to renamed closures. */
module RenamingCorrect {
  import opened Base
  import opened CExpSyntax
  import opened CExpEval

  /** Two values that differ only in how their closures lay out their environments. */
  ghost predicate Same(v: CVal, w: CVal)
    decreases v
  {
    match v
    case CVCon(k, xs) =>
      w.CVCon? && w.key == k && |w.args| == |xs| && forall i :: 0 <= i < |xs| ==> Same(xs[i], w.args[i])
    case CVConst(_) => w == v
    case CVErased => w == v
    case CVClo(env, b) =>
      w.CVClo? && Scoped(b, 1 + |env|) &&
      exists r: Renaming :: |r| == |env| && Into(r, |w.env|) && w.body == Ren(Up(1, r), b) &&
        forall i :: 0 <= i < |env| ==> Same(env[i], w.env[r[i]])
    case CVThunk(env, b) =>
      w.CVThunk? && Scoped(b, |env|) &&
      exists r: Renaming :: |r| == |env| && Into(r, |w.env|) && w.body == Ren(r, b) &&
        forall i :: 0 <= i < |env| ==> Same(env[i], w.env[r[i]])
  }

  ghost predicate SameAll(vs: seq<CVal>, ws: seq<CVal>) {
    |vs| == |ws| && forall i :: 0 <= i < |vs| ==> Same(vs[i], ws[i])
  }

  /** `env'` holds what `env` holds, at the positions `r` gives. */
  ghost predicate SameEnv(r: Renaming, env: seq<CVal>, env': seq<CVal>) {
    |r| == |env| && Into(r, |env'|) && forall i :: 0 <= i < |env| ==> Same(env[i], env'[r[i]])
  }

  ghost predicate SameOutcome(o: Outcome<CVal>, o': Outcome<CVal>) {
    if o.Value? then o'.Value? && Same(o.v, o'.v) else o' == o
  }

  ghost predicate SameOutcomes(o: Outcome<seq<CVal>>, o': Outcome<seq<CVal>>) {
    if o.Value? then o'.Value? && SameAll(o.v, o'.v) else o' == o
  }

  /** Definitions are closed, and primitives cannot look inside closures. */
  ghost predicate Proper(p: CProg) {
    (forall n :: n in p.defs ==> match p.defs[n]
                                 case MkFun(args, b) => Scoped(b, |args|)
                                 case MkError(b) => Scoped(b, 0)
                                 case _ => true) &&
    (forall k, vs, ws :: SameAll(vs, ws) ==> SameOutcome(p.prim(k, vs), p.prim(k, ws)))
  }

  lemma SameEnvUp(vs: seq<CVal>, ws: seq<CVal>, r: Renaming, env: seq<CVal>, env': seq<CVal>)
    requires SameEnv(r, env, env') && SameAll(vs, ws)
    ensures SameEnv(Up(|vs|, r), vs + env, ws + env')
  {
    hide Same;
  }

  lemma CloSame(r: Renaming, env: seq<CVal>, env': seq<CVal>, b: CExp)
    requires SameEnv(r, env, env') && Scoped(b, 1 + |env|)
    ensures Same(CVClo(env, b), CVClo(env', Ren(Up(1, r), b)))
  {
  }

  lemma ThunkSame(r: Renaming, env: seq<CVal>, env': seq<CVal>, b: CExp)
    requires SameEnv(r, env, env') && Scoped(b, |env|)
    ensures Same(CVThunk(env, b), CVThunk(env', Ren(r, b)))
  {
  }

  lemma CloRenaming(v: CVal, w: CVal) returns (r: Renaming)
    requires Same(v, w) && v.CVClo?
    ensures w.CVClo? && SameEnv(r, v.env, w.env) && Scoped(v.body, 1 + |v.env|) && w.body == Ren(Up(1, r), v.body)
  {
    r :| |r| == |v.env| && Into(r, |w.env|) && w.body == Ren(Up(1, r), v.body) &&
      forall i :: 0 <= i < |v.env| ==> Same(v.env[i], w.env[r[i]]);
  }

  lemma ThunkRenaming(v: CVal, w: CVal) returns (r: Renaming)
    requires Same(v, w) && v.CVThunk?
    ensures w.CVThunk? && SameEnv(r, v.env, w.env) && Scoped(v.body, |v.env|) && w.body == Ren(r, v.body)
  {
    r :| |r| == |v.env| && Into(r, |w.env|) && w.body == Ren(r, v.body) &&
      forall i :: 0 <= i < |v.env| ==> Same(v.env[i], w.env[r[i]]);
  }

  function RenAll(r: Renaming, es: seq<CExp>): (rs: seq<CExp>)
    ensures |rs| == |es|
  {
    seq(|es|, i requires 0 <= i < |es| => Ren(r, es[i]))
  }

  ghost predicate AllScoped(es: seq<CExp>, n: nat) { forall i :: 0 <= i < |es| ==> Scoped(es[i], n) }

  lemma {:induction false} SamePick(alts: seq<CConAlt>, alts': seq<CConAlt>, v: CVal, w: CVal)
    requires |alts| == |alts'| && Same(v, w)
    requires forall i :: 0 <= i < |alts| ==> alts[i].con == alts'[i].con && alts[i].tag == alts'[i].tag
    ensures PickCon(alts, v) == PickCon(alts', w)
  {
    assert AltKeys(alts) == AltKeys(alts');
  }

  lemma {:induction false} SamePickConst(alts: seq<CConstAlt>, alts': seq<CConstAlt>, v: CVal, w: CVal)
    requires |alts| == |alts'| && Same(v, w)
    requires forall i :: 0 <= i < |alts| ==> alts[i].c == alts'[i].c
    ensures PickConst(alts, v) == PickConst(alts', w)
  {
    assert AltConsts(alts) == AltConsts(alts');
  }

  /** The main result: a term and its renaming have the same outcome, for every
      amount of fuel. */
  lemma {:induction false} RenEval(p: CProg, fuel: nat, r: Renaming, env: seq<CVal>, env': seq<CVal>, e: CExp)
    requires Proper(p) && SameEnv(r, env, env') && Scoped(e, |env|)
    ensures SameOutcome(Eval(p, fuel, env, e), Eval(p, fuel, env', Ren(r, e)))
    decreases fuel, 1, e
  {
    match e
    case CLocal(i) =>
    case CRef(n) => CallSame(p, fuel, n, [], []);
    case CLam(_, b) => CloSame(r, env, env', b);
    case CLet(_, _, v, s) => RenLet(p, fuel, r, env, env', e);
    case CApp(f, args) => RenApp(p, fuel, r, env, env', e);
    case CCon(_, _, args) => RenList(p, fuel, r, env, env', args);
    case COp(_, _, args) => RenList(p, fuel, r, env, env', args);
    case CExtPrim(_, args) => RenList(p, fuel, r, env, env', args);
    case CForce(_, t) =>
      RenEval(p, fuel, r, env, env', t);
      var o, o' := Eval(p, fuel, env, t), Eval(p, fuel, env', Ren(r, t));
      if o.Value? { ForceSame(p, fuel, o.v, o'.v); }
    case CDelay(_, t) => ThunkSame(r, env, env', t);
    case CConCase(_, _, _) => RenConCase(p, fuel, r, env, env', e);
    case CConstCase(_, _, _) => RenConstCase(p, fuel, r, env, env', e);
    case CPrimVal(_) =>
    case CErased =>
    case CCrash(_) =>
  }

  lemma {:induction false} RenLet(p: CProg, fuel: nat, r: Renaming, env: seq<CVal>, env': seq<CVal>, e: CExp)
    requires Proper(p) && SameEnv(r, env, env') && Scoped(e, |env|) && e.CLet?
    ensures SameOutcome(Eval(p, fuel, env, e), Eval(p, fuel, env', Ren(r, e)))
    decreases fuel, 1, e, 0
  {
    RenEval(p, fuel, r, env, env', e.val);
    var o, o' := Eval(p, fuel, env, e.val), Eval(p, fuel, env', Ren(r, e.val));
    if o.Value? {
      SameEnvUp([o.v], [o'.v], r, env, env');
      RenEval(p, fuel, Up(1, r), [o.v] + env, [o'.v] + env', e.sc);
    }
  }

  lemma {:induction false} RenApp(p: CProg, fuel: nat, r: Renaming, env: seq<CVal>, env': seq<CVal>, e: CExp)
    requires Proper(p) && SameEnv(r, env, env') && Scoped(e, |env|) && e.CApp?
    ensures SameOutcome(Eval(p, fuel, env, e), Eval(p, fuel, env', Ren(r, e)))
    decreases fuel, 1, e, 0
  {
    if e.f.CRef? {
      RenList(p, fuel, r, env, env', e.args);
      var o, o' := EvalList(p, fuel, env, e.args), EvalList(p, fuel, env', RenAll(r, e.args));
      if o.Value? { CallSame(p, fuel, e.f.n, o.v, o'.v); }
    } else {
      RenEval(p, fuel, r, env, env', e.f);
      var o, o' := Eval(p, fuel, env, e.f), Eval(p, fuel, env', Ren(r, e.f));
      if o.Value? { RenApps(p, fuel, r, env, env', o.v, o'.v, e.args); }
    }
  }

  lemma {:induction false} RenList(p: CProg, fuel: nat, r: Renaming, env: seq<CVal>, env': seq<CVal>, es: seq<CExp>)
    requires Proper(p) && SameEnv(r, env, env') && AllScoped(es, |env|)
    ensures SameOutcomes(EvalList(p, fuel, env, es), EvalList(p, fuel, env', RenAll(r, es)))
    decreases fuel, 1, es
  {
    if es != [] {
      RenEval(p, fuel, r, env, env', es[0]);
      RenList(p, fuel, r, env, env', es[1..]);
      assert RenAll(r, es)[1..] == RenAll(r, es[1..]);
    }
  }

  lemma {:induction false} RenApps(p: CProg, fuel: nat, r: Renaming, env: seq<CVal>, env': seq<CVal>,
                                   g: CVal, h: CVal, es: seq<CExp>)
    requires Proper(p) && SameEnv(r, env, env') && AllScoped(es, |env|) && Same(g, h)
    ensures SameOutcome(EvalApps(p, fuel, env, g, es), EvalApps(p, fuel, env', h, RenAll(r, es)))
    decreases fuel, 1, es
  {
    if es != [] {
      RenEval(p, fuel, r, env, env', es[0]);
      assert RenAll(r, es)[1..] == RenAll(r, es[1..]);
      var o, o' := Eval(p, fuel, env, es[0]), Eval(p, fuel, env', Ren(r, es[0]));
      if o.Value? {
        ApplySame(p, fuel, g, h, o.v, o'.v);
        var a, a' := Apply(p, fuel, g, o.v), Apply(p, fuel, h, o'.v);
        if a.Value? { RenApps(p, fuel, r, env, env', a.v, a'.v, es[1..]); }
      }
    }
  }

  lemma {:induction false} RenConCase(p: CProg, fuel: nat, r: Renaming, env: seq<CVal>, env': seq<CVal>, e: CExp)
    requires Proper(p) && SameEnv(r, env, env') && Scoped(e, |env|) && e.CConCase?
    ensures SameOutcome(Eval(p, fuel, env, e), Eval(p, fuel, env', Ren(r, e)))
    decreases fuel, 1, e, 0
  {
    var e' := Ren(r, e);
    RenEval(p, fuel, r, env, env', e.scr);
    var o, o' := Eval(p, fuel, env, e.scr), Eval(p, fuel, env', e'.scr);
    if o.Value? {
      SamePick(e.conAlts, e'.conAlts, o.v, o'.v);
      var pick := PickCon(e.conAlts, o.v);
      if pick.Some? {
        var alt := e.conAlts[pick.value];
        assert (e.conAlts decreases to e.conAlts[pick.value]);
        if |alt.args| == |o.v.args| {
          SameEnvUp(o.v.args, o'.v.args, r, env, env');
          RenEval(p, fuel, Up(|alt.args|, r), o.v.args + env, o'.v.args + env', alt.body);
        }
      } else if e.def.Some? {
        RenEval(p, fuel, r, env, env', e.def.value);
      }
    }
  }

  lemma {:induction false} RenConstCase(p: CProg, fuel: nat, r: Renaming, env: seq<CVal>, env': seq<CVal>, e: CExp)
    requires Proper(p) && SameEnv(r, env, env') && Scoped(e, |env|) && e.CConstCase?
    ensures SameOutcome(Eval(p, fuel, env, e), Eval(p, fuel, env', Ren(r, e)))
    decreases fuel, 1, e, 0
  {
    var e' := Ren(r, e);
    RenEval(p, fuel, r, env, env', e.scr);
    var o, o' := Eval(p, fuel, env, e.scr), Eval(p, fuel, env', e'.scr);
    if o.Value? {
      SamePickConst(e.constAlts, e'.constAlts, o.v, o'.v);
      var pick := PickConst(e.constAlts, o.v);
      if pick.Some? {
        assert (e.constAlts decreases to e.constAlts[pick.value]);
        RenEval(p, fuel, r, env, env', e.constAlts[pick.value].body);
      } else if e.def.Some? {
        RenEval(p, fuel, r, env, env', e.def.value);
      }
    }
  }

  lemma SameShape(g: CVal, h: CVal)
    requires Same(g, h)
    ensures g.CVClo? <==> h.CVClo?
  {
  }

  lemma OnePair(v: CVal, w: CVal)
    requires Same(v, w)
    ensures SameAll([v], [w])
  {
    hide Same;
  }

  lemma {:induction false} ApplySame(p: CProg, fuel: nat, g: CVal, h: CVal, v: CVal, w: CVal)
    requires Proper(p) && Same(g, h) && Same(v, w)
    ensures SameOutcome(Apply(p, fuel, g, v), Apply(p, fuel, h, w))
    decreases fuel, 0
  {
    hide Same, Eval, Proper, SameEnv, SameAll;
    SameShape(g, h);
    OnePair(v, w);
    if g.CVClo? {
      var r := CloRenaming(g, h);
      SameEnvUp([v], [w], r, g.env, h.env);
      if fuel > 0 { RenEval(p, fuel - 1, Up(1, r), [v] + g.env, [w] + h.env, g.body); }
    }
  }

  lemma {:induction false} ForceSame(p: CProg, fuel: nat, v: CVal, w: CVal)
    requires Proper(p) && Same(v, w)
    ensures SameOutcome(Force(p, fuel, v), Force(p, fuel, w))
    decreases fuel, 0
  {
    if v.CVThunk? {
      var r := ThunkRenaming(v, w);
      hide Same;
      if fuel > 0 { RenEval(p, fuel - 1, r, v.env, w.env, v.body); }
    }
  }

  lemma {:induction false} CallSame(p: CProg, fuel: nat, n: Name, vs: seq<CVal>, ws: seq<CVal>)
    requires Proper(p) && SameAll(vs, ws)
    ensures SameOutcome(Call(p, fuel, n, vs), Call(p, fuel, n, ws))
    decreases fuel, 0
  {
    if n in p.defs && fuel > 0 {
      match p.defs[n]
      case MkFun(args, b) =>
        if |vs| == |args| {
          RenEval(p, fuel - 1, Identity(|vs|), vs, ws, b);
          RenIdentity(b, |vs|);
        }
      case MkError(b) =>
        RenEval(p, fuel - 1, Identity(0), [], [], b);
        RenIdentity(b, 0);
      case _ =>
    }
  }

  // ----- The relation is transitive, and reflexive on what evaluation yields -----

  lemma {:induction false} SameTrans(u: CVal, v: CVal, w: CVal)
    requires Same(u, v) && Same(v, w)
    ensures Same(u, w)
    decreases u, 1
  {
    if u.CVCon? {
      forall i | 0 <= i < |u.args| ensures Same(u.args[i], w.args[i]) {
        SameTrans(u.args[i], v.args[i], w.args[i]);
      }
    } else if u.CVClo? {
      CloTrans(u, v, w);
    } else if u.CVThunk? {
      ThunkTrans(u, v, w);
    }
  }

  lemma {:induction false} CloTrans(u: CVal, v: CVal, w: CVal)
    requires Same(u, v) && Same(v, w) && u.CVClo?
    ensures Same(u, w)
    decreases u, 0
  {
    hide Same;
    var r := CloRenaming(u, v);
    var q := CloRenaming(v, w);
    SameEnvTrans(r, q, u.env, v.env, w.env);
    UpCompose(1, q, r);
    hide SameEnv, Ren, Up, Compose;
    RenCompose(Up(1, q), Up(1, r), u.body);
    CloSame(Compose(q, r), u.env, w.env, u.body);
  }

  lemma {:induction false} ThunkTrans(u: CVal, v: CVal, w: CVal)
    requires Same(u, v) && Same(v, w) && u.CVThunk?
    ensures Same(u, w)
    decreases u, 0
  {
    hide Same;
    var r := ThunkRenaming(u, v);
    var q := ThunkRenaming(v, w);
    SameEnvTrans(r, q, u.env, v.env, w.env);
    hide Ren, Compose;
    RenCompose(q, r, u.body);
    ThunkSame(Compose(q, r), u.env, w.env, u.body);
  }

  lemma {:induction false} SameEnvTrans(r: Renaming, q: Renaming, e1: seq<CVal>, e2: seq<CVal>, e3: seq<CVal>)
    requires SameEnv(r, e1, e2) && SameEnv(q, e2, e3)
    ensures SameEnv(Compose(q, r), e1, e3)
    decreases e1
  {
    hide Same;
    forall i | 0 <= i < |e1| ensures Same(e1[i], e3[Compose(q, r)[i]]) {
      SameTrans(e1[i], e2[r[i]], e3[q[r[i]]]);
    }
  }

  lemma SameOutcomeTrans(o: Outcome<CVal>, o': Outcome<CVal>, o'': Outcome<CVal>)
    requires SameOutcome(o, o') && SameOutcome(o', o'')
    ensures SameOutcome(o, o'')
  {
    if o.Value? { SameTrans(o.v, o'.v, o''.v); }
  }

  /** Well-formed environments: every closure in them is well scoped. */
  ghost predicate GoodEnv(env: seq<CVal>) { SameAll(env, env) }

  lemma EvalGood(p: CProg, fuel: nat, env: seq<CVal>, e: CExp)
    requires Proper(p) && GoodEnv(env) && Scoped(e, |env|)
    ensures SameOutcome(Eval(p, fuel, env, e), Eval(p, fuel, env, e))
  {
    RenEval(p, fuel, Identity(|env|), env, env, e);
    RenIdentity(e, |env|);
  }
}

/** Lifting lambdas out of case blocks anywhere in a program preserves the values it
    computes (Compiler/CaseOpts.idr). */
module CaseLamSim {
  import opened Base
  import opened CExpSyntax
  import opened CExpEval
  import opened CExpFuel
  import opened CaseOpts
  import opened CaseLamCorrect

  function Max(a: nat, b: nat): nat { if a > b then a else b }

  // ----- Terms in which blocks were lifted -----

  /** The renaming past one more binder. */
  function Later(r: Renaming): (u: Renaming)
    ensures |u| == |r| && forall i :: 0 <= i < |r| ==> u[i] == r[i] + 1
  {
    seq(|r|, i requires 0 <= i < |r| => r[i] + 1)
  }

  /** From scope `x, args.., rest` to `args.., x, rest'`, where there are `k` args. */
  function Move(k: nat, r: Renaming): (u: Renaming)
    ensures |u| == 1 + k + |r| && u[0] == k
    ensures forall i :: 1 <= i <= k ==> u[i] == i - 1
    ensures forall i :: k < i < 1 + k + |r| ==> u[i] == r[i - k - 1] + k + 1
  {
    [k] + seq(k, i => i) + seq(|r|, i requires 0 <= i < |r| => r[i] + k + 1)
  }

  /** `f` is `e` with its variables renamed, its binders' names changed and some of
      its case blocks lifted. */
  predicate Becomes(r: Renaming, e: CExp, f: CExp)
    decreases e, 1
  {
    match e
    case CLocal(i) => i < |r| && f == CLocal(r[i])
    case CRef(_) => f == e
    case CLam(_, b) => f.CLam? && Becomes(Up(1, r), b, f.body)
    case CLet(_, _, v, s) => f.CLet? && Becomes(r, v, f.val) && Becomes(Up(1, r), s, f.sc)
    case CApp(g, args) => f.CApp? && Becomes(r, g, f.f) && BecomesAll(r, args, f.args)
    case CCon(n, t, args) => f.CCon? && f.con == n && f.tag == t && BecomesAll(r, args, f.args)
    case COp(op, _, args) => f.COp? && f.op == op && BecomesAll(r, args, f.args)
    case CExtPrim(p, args) => f.CExtPrim? && f.p == p && BecomesAll(r, args, f.args)
    case CForce(_, t) => f.CForce? && Becomes(r, t, f.tm)
    case CDelay(_, t) => f.CDelay? && Becomes(r, t, f.tm)
    case CConCase(_, _, _) => PlainCon(r, e, f) || LiftedCon(r, e, f)
    case CConstCase(_, _, _) => PlainConst(r, e, f) || LiftedConst(r, e, f)
    case CPrimVal(_) => f == e
    case CErased => f == e
    case CCrash(_) => f == e
  }

  predicate BecomesAll(r: Renaming, es: seq<CExp>, fs: seq<CExp>)
    decreases es, 0
  {
    |fs| == |es| && forall i :: 0 <= i < |es| ==> Becomes(r, es[i], fs[i])
  }

  predicate PlainCon(r: Renaming, e: CExp, f: CExp)
    requires e.CConCase?
    decreases e, 0
  {
    && f.CConCase? && Becomes(r, e.scr, f.scr) && |f.conAlts| == |e.conAlts| && AltKeys(f.conAlts) == AltKeys(e.conAlts)
    && (forall i :: 0 <= i < |e.conAlts| ==>
         assert (e.conAlts decreases to e.conAlts[i]);
         |f.conAlts[i].args| == |e.conAlts[i].args| && Becomes(Up(|e.conAlts[i].args|, r), e.conAlts[i].body, f.conAlts[i].body))
    && (f.def.Some? <==> e.def.Some?) && (e.def.Some? ==> Becomes(r, e.def.value, f.def.value))
  }

  predicate LiftedCon(r: Renaming, e: CExp, f: CExp)
    requires e.CConCase?
    decreases e, 0
  {
    f.CLam? && f.body.CConCase? &&
    var n := f.body;
    && Becomes(Later(r), e.scr, n.scr) && |n.conAlts| == |e.conAlts| && AltKeys(n.conAlts) == AltKeys(e.conAlts)
    && (forall i :: 0 <= i < |e.conAlts| ==>
         assert (e.conAlts decreases to e.conAlts[i]);
         && |n.conAlts[i].args| == |e.conAlts[i].args| && e.conAlts[i].body.CLam?
         && Becomes(Move(|e.conAlts[i].args|, r), e.conAlts[i].body.body, n.conAlts[i].body))
    && (n.def.Some? <==> e.def.Some?)
    && (e.def.Some? ==> e.def.value.CLam? && Becomes(Move(0, r), e.def.value.body, n.def.value))
  }

  predicate PlainConst(r: Renaming, e: CExp, f: CExp)
    requires e.CConstCase?
    decreases e, 0
  {
    && f.CConstCase? && Becomes(r, e.scr, f.scr) && |f.constAlts| == |e.constAlts| && AltConsts(f.constAlts) == AltConsts(e.constAlts)
    && (forall i :: 0 <= i < |e.constAlts| ==>
         assert (e.constAlts decreases to e.constAlts[i]);
         Becomes(r, e.constAlts[i].body, f.constAlts[i].body))
    && (f.def.Some? <==> e.def.Some?) && (e.def.Some? ==> Becomes(r, e.def.value, f.def.value))
  }

  predicate LiftedConst(r: Renaming, e: CExp, f: CExp)
    requires e.CConstCase?
    decreases e, 0
  {
    f.CLam? && f.body.CConstCase? &&
    var n := f.body;
    && Becomes(Later(r), e.scr, n.scr) && |n.constAlts| == |e.constAlts| && AltConsts(n.constAlts) == AltConsts(e.constAlts)
    && (forall i :: 0 <= i < |e.constAlts| ==>
         assert (e.constAlts decreases to e.constAlts[i]);
         e.constAlts[i].body.CLam? && Becomes(Move(0, r), e.constAlts[i].body.body, n.constAlts[i].body))
    && (n.def.Some? <==> e.def.Some?)
    && (e.def.Some? ==> e.def.value.CLam? && Becomes(Move(0, r), e.def.value.body, n.def.value))
  }

  // ----- Values -----

  /** From some fuel on, running `e` comes to running `f`. */
  ghost predicate LeadsTo(q: CProg, fuel: nat, env: seq<CVal>, e: CExp, env': seq<CVal>, f: CExp) {
    forall more: nat :: more >= fuel ==> Eval(q, more, env, e) == Eval(q, more, env', f)
  }

  /** Where applying a closure leads. */
  datatype Entry = Entry(fuel: nat, r: Renaming, env: seq<CVal>, body: CExp)

  /** Values agree: a closure may do part of its work on every application that the
      other did once. */
  ghost predicate VRel(q: CProg, v: CVal, w: CVal)
    decreases v, 1
  {
    match v
    case CVCon(k, xs) => w.CVCon? && w.key == k && |w.args| == |xs| && forall i :: 0 <= i < |xs| ==> VRel(q, xs[i], w.args[i])
    case CVConst(_) => w == v
    case CVErased => w == v
    case CVClo(env, b) => w.CVClo? && forall a: CVal :: EntersWith(q, env, b, w, a)
    case CVThunk(env, b) => w.CVThunk? && exists r: Renaming :: EnvRel(q, r, env, w.env) && Becomes(r, b, w.body)
  }

  ghost predicate EntersWith(q: CProg, env: seq<CVal>, b: CExp, w: CVal, a: CVal)
    requires w.CVClo?
    decreases env, 3
  {
    exists x: Entry :: Enters(q, env, b, w, a, x)
  }

  /** Applied to `a`, closure `w` gets to a form of `b` in which the first variable is
      `a` and the others agree with `env`. */
  ghost predicate Enters(q: CProg, env: seq<CVal>, b: CExp, w: CVal, a: CVal, x: Entry)
    requires w.CVClo?
    decreases env, 2
  {
    && LeadsTo(q, x.fuel, [a] + w.env, w.body, x.env, x.body) && Becomes(x.r, b, x.body)
    && |x.r| == 1 + |env| && x.r[0] < |x.env| && x.env[x.r[0]] == a
    && EnvRel(q, x.r[1..], env, x.env)
  }

  ghost predicate EnvRel(q: CProg, r: Renaming, env: seq<CVal>, env': seq<CVal>)
    decreases env, 1
  {
    |r| == |env| && forall i :: 0 <= i < |env| ==> r[i] < |env'| && VRel(q, env[i], env'[r[i]])
  }

  ghost predicate VRels(q: CProg, vs: seq<CVal>, ws: seq<CVal>) {
    |vs| == |ws| && forall i :: 0 <= i < |vs| ==> VRel(q, vs[i], ws[i])
  }

  predicate DefBecomes(d: CDef, d': CDef) {
    match d
    case MkFun(args, b) => d'.MkFun? && |d'.args| == |args| && Becomes(Identity(|args|), b, d'.body)
    case MkCon(_, _) => d'.MkCon?
    case MkForeign(arity) => d' == d
    case MkError(b) => d'.MkError? && Becomes([], b, d'.expl)
  }

  /** Every definition has its blocks lifted, and the primitives agree. */
  ghost predicate Lifts(p: CProg, q: CProg) {
    && (forall n :: n in p.defs ==> n in q.defs && DefBecomes(p.defs[n], q.defs[n]))
    && (forall k, vs, ws :: VRels(q, vs, ws) && p.prim(k, vs).Value? ==> q.prim(k, ws).Value? && VRel(q, p.prim(k, vs).v, q.prim(k, ws).v))
  }

  // ----- Environments -----

  lemma EnvUnder(q: CProg, r: Renaming, env: seq<CVal>, env': seq<CVal>, xs: seq<CVal>, ys: seq<CVal>)
    requires EnvRel(q, r, env, env') && VRels(q, xs, ys)
    ensures EnvRel(q, Up(|xs|, r), xs + env, ys + env')
  {
    hide VRel;
    var u := Up(|xs|, r);
    forall i | 0 <= i < |xs + env| ensures u[i] < |ys + env'| && VRel(q, (xs + env)[i], (ys + env')[u[i]]) {
      if i >= |xs| { assert VRel(q, env[i - |xs|], env'[r[i - |xs|]]); }
    }
  }

  lemma EnvLater(q: CProg, r: Renaming, env: seq<CVal>, env': seq<CVal>, a: CVal)
    requires EnvRel(q, r, env, env')
    ensures EnvRel(q, Later(r), env, [a] + env')
  {
    hide VRel;
  }

  lemma EnvMoved(q: CProg, r: Renaming, env: seq<CVal>, env': seq<CVal>, xs: seq<CVal>, ys: seq<CVal>, a: CVal)
    requires EnvRel(q, r, env, env') && VRels(q, xs, ys)
    ensures (ys + ([a] + env'))[Move(|xs|, r)[0]] == a
    ensures EnvRel(q, Move(|xs|, r)[1..], xs + env, ys + ([a] + env'))
  {
    hide VRel;
    var u, k, new' := Move(|xs|, r)[1..], |xs|, ys + ([a] + env');
    forall i | 0 <= i < |xs + env| ensures u[i] < |new'| && VRel(q, (xs + env)[i], new'[u[i]]) {
      if i < k { assert u[i] == i; } else {
        assert u[i] == Move(k, r)[1 + i] == r[i - k] + k + 1;
        assert VRel(q, env[i - k], env'[r[i - k]]);
      }
    }
  }

  lemma EnvIdentity(q: CProg, vs: seq<CVal>, ws: seq<CVal>)
    requires VRels(q, vs, ws)
    ensures EnvRel(q, Identity(|vs|), vs, ws)
  {
    hide VRel;
  }

  // ----- Closures -----

  lemma PlainClosure(q: CProg, r: Renaming, env: seq<CVal>, env': seq<CVal>, b: CExp, b': CExp)
    requires EnvRel(q, r, env, env') && Becomes(Up(1, r), b, b')
    ensures VRel(q, CVClo(env, b), CVClo(env', b'))
  {
    hide Becomes;
    var w := CVClo(env', b');
    forall a: CVal ensures EntersWith(q, env, b, w, a) {
      var x := Entry(0, Up(1, r), [a] + env', b');
      assert x.r[1..] == Later(r);
      EnvLater(q, r, env, env', a);
      assert Enters(q, env, b, w, a, x);
    }
  }

  lemma PlainThunk(q: CProg, r: Renaming, env: seq<CVal>, env': seq<CVal>, b: CExp, b': CExp)
    requires EnvRel(q, r, env, env') && Becomes(r, b, b')
    ensures VRel(q, CVThunk(env, b), CVThunk(env', b'))
  {
  }

  // ----- The simulation -----

  ghost predicate Pre(p: CProg, q: CProg, fuel: nat, r: Renaming, env: seq<CVal>, env': seq<CVal>, e: CExp, f: CExp) {
    Lifts(p, q) && EnvRel(q, r, env, env') && Becomes(r, e, f) && Eval(p, fuel, env, e).Value?
  }

  /** With enough fuel the run in `q` yields a value that agrees with `v`. */
  ghost predicate Yields(q: CProg, v: CVal, env': seq<CVal>, f: CExp, g: nat, w: CVal) {
    Eval(q, g, env', f) == Value(w) && VRel(q, v, w)
  }

  lemma YieldsMore(q: CProg, v: CVal, env': seq<CVal>, f: CExp, g: nat, w: CVal, more: nat)
    requires Yields(q, v, env', f, g, w) && g <= more
    ensures Yields(q, v, env', f, more, w)
  {
    hide Eval, VRel;
    EvalAgree(q, g, more, env', f);
  }

  /** What a term yields, it yields after blocks in it and in the program were lifted. */
  lemma {:induction false} Sim(p: CProg, q: CProg, fuel: nat, r: Renaming, env: seq<CVal>, env': seq<CVal>, e: CExp, f: CExp)
    returns (g: nat, w: CVal)
    requires Pre(p, q, fuel, r, env, env', e, f)
    ensures Yields(q, Eval(p, fuel, env, e).v, env', f, g, w)
    decreases fuel, 1, e, 2
  {
    hide VRel, Lifts, LiftedCon, PlainCon, LiftedConst, PlainConst;
    match e
    case CLocal(i) => g, w := 0, env'[r[i]];
    case CRef(n) => g, w := SimCall(p, q, fuel, n, [], []);
    case CLam(_, b) => g, w := 0, CVClo(env', f.body); PlainClosure(q, r, env, env', b, f.body);
    case CLet(_, _, _, _) => g, w := SimLet(p, q, fuel, r, env, env', e, f);
    case CApp(_, _) => g, w := SimApp(p, q, fuel, r, env, env', e, f);
    case CCon(_, _, _) => g, w := SimCon(p, q, fuel, r, env, env', e, f);
    case COp(_, _, _) => g, w := SimPrim(p, q, fuel, r, env, env', e, f);
    case CExtPrim(_, _) => g, w := SimPrim(p, q, fuel, r, env, env', e, f);
    case CForce(_, _) => g, w := SimForce(p, q, fuel, r, env, env', e, f);
    case CDelay(_, b) => g, w := 0, CVThunk(env', f.tm); PlainThunk(q, r, env, env', b, f.tm);
    case CConCase(_, _, _) => g, w := SimConCase(p, q, fuel, r, env, env', e, f);
    case CConstCase(_, _, _) => g, w := SimConstCase(p, q, fuel, r, env, env', e, f);
    case CPrimVal(c) => g, w := 0, CVConst(c); SelfData(q, w);
    case CErased => g, w := 0, CVErased; SelfData(q, w);
    case CCrash(_) =>
  }

  lemma SelfData(q: CProg, w: CVal)
    requires w.CVConst? || w.CVErased?
    ensures VRel(q, w, w)
  {
  }

  lemma {:induction false} SimLet(p: CProg, q: CProg, fuel: nat, r: Renaming, env: seq<CVal>, env': seq<CVal>, e: CExp, f: CExp)
    returns (g: nat, w: CVal)
    requires Pre(p, q, fuel, r, env, env', e, f) && e.CLet?
    ensures Yields(q, Eval(p, fuel, env, e).v, env', f, g, w)
    decreases fuel, 1, e, 1
  {
    hide VRel, Lifts;
    var x := Eval(p, fuel, env, e.val).v;
    var g1, y := Sim(p, q, fuel, r, env, env', e.val, f.val);
    EnvUnder(q, r, env, env', [x], [y]);
    var g2;
    g2, w := Sim(p, q, fuel, Up(1, r), [x] + env, [y] + env', e.sc, f.sc);
    g := Max(g1, g2);
    YieldsMore(q, x, env', f.val, g1, y, g);
    YieldsMore(q, Eval(p, fuel, env, e).v, [y] + env', f.sc, g2, w, g);
  }

  lemma {:induction false} SimList(p: CProg, q: CProg, fuel: nat, r: Renaming, env: seq<CVal>, env': seq<CVal>, es: seq<CExp>, fs: seq<CExp>)
    returns (g: nat, ws: seq<CVal>)
    requires Lifts(p, q) && EnvRel(q, r, env, env') && BecomesAll(r, es, fs) && EvalList(p, fuel, env, es).Value?
    ensures EvalList(q, g, env', fs) == Value(ws) && VRels(q, EvalList(p, fuel, env, es).v, ws)
    decreases fuel, 1, es, 0
  {
    hide VRel, Lifts, Becomes, EnvRel;
    if es == [] { g, ws := 0, []; }
    else {
      var v, vs := Eval(p, fuel, env, es[0]).v, EvalList(p, fuel, env, es[1..]).v;
      var g1, y := Sim(p, q, fuel, r, env, env', es[0], fs[0]);
      var g2, ys := SimList(p, q, fuel, r, env, env', es[1..], fs[1..]);
      g, ws := Max(g1, g2), [y] + ys;
      YieldsMore(q, v, env', fs[0], g1, y, g);
      ListAgree(q, g2, g, env', fs[1..]);
      ConsRels(q, v, vs, y, ys);
    }
  }

  lemma ConsRels(q: CProg, v: CVal, vs: seq<CVal>, y: CVal, ys: seq<CVal>)
    requires VRel(q, v, y) && VRels(q, vs, ys)
    ensures VRels(q, [v] + vs, [y] + ys)
  {
    hide VRel;
  }

  lemma {:induction false} SimCon(p: CProg, q: CProg, fuel: nat, r: Renaming, env: seq<CVal>, env': seq<CVal>, e: CExp, f: CExp)
    returns (g: nat, w: CVal)
    requires Pre(p, q, fuel, r, env, env', e, f) && e.CCon?
    ensures Yields(q, Eval(p, fuel, env, e).v, env', f, g, w)
    decreases fuel, 1, e, 1
  {
    hide Lifts;
    var ws;
    g, ws := SimList(p, q, fuel, r, env, env', e.args, f.args);
    w := CVCon(KeyOf(e.con, e.tag), ws);
  }

  lemma {:induction false} SimPrim(p: CProg, q: CProg, fuel: nat, r: Renaming, env: seq<CVal>, env': seq<CVal>, e: CExp, f: CExp)
    returns (g: nat, w: CVal)
    requires Pre(p, q, fuel, r, env, env', e, f) && (e.COp? || e.CExtPrim?)
    ensures Yields(q, Eval(p, fuel, env, e).v, env', f, g, w)
    decreases fuel, 1, e, 1
  {
    hide VRel;
    var ws;
    g, ws := SimList(p, q, fuel, r, env, env', e.args, f.args);
    var k := if e.COp? then OpKey(e.op) else ExtKey(e.p);
    w := q.prim(k, ws).v;
  }

  lemma {:induction false} SimApp(p: CProg, q: CProg, fuel: nat, r: Renaming, env: seq<CVal>, env': seq<CVal>, e: CExp, f: CExp)
    returns (g: nat, w: CVal)
    requires Pre(p, q, fuel, r, env, env', e, f) && e.CApp?
    ensures Yields(q, Eval(p, fuel, env, e).v, env', f, g, w)
    decreases fuel, 1, e, 1
  {
    hide VRel, Lifts;
    HeadKind(r, e.f, f.f);
    hide Becomes;
    if e.f.CRef? {
      var vs := EvalList(p, fuel, env, e.args).v;
      var g1, ws := SimList(p, q, fuel, r, env, env', e.args, f.args);
      var g2;
      g2, w := SimCall(p, q, fuel, e.f.n, vs, ws);
      g := Max(g1, g2);
      ListAgree(q, g1, g, env', f.args);
      CallAgree(q, g2, g, e.f.n, ws);
    } else {
      var h := Eval(p, fuel, env, e.f).v;
      var g1, h' := Sim(p, q, fuel, r, env, env', e.f, f.f);
      var g2;
      g2, w := SimApps(p, q, fuel, r, env, env', h, h', e.args, f.args);
      g := Max(g1, g2);
      YieldsMore(q, h, env', f.f, g1, h', g);
      AppsAgree(q, g2, g, env', h', f.args);
    }
  }

  lemma HeadKind(r: Renaming, e: CExp, f: CExp)
    requires Becomes(r, e, f)
    ensures e.CRef? <==> f.CRef?
    ensures e.CRef? ==> f == e
  {
    if e.CConCase? { assert PlainCon(r, e, f) || LiftedCon(r, e, f); }
    if e.CConstCase? { assert PlainConst(r, e, f) || LiftedConst(r, e, f); }
  }

  lemma {:induction false} AppsAgree(q: CProg, g: nat, more: nat, env: seq<CVal>, h: CVal, es: seq<CExp>)
    requires g <= more && EvalApps(q, g, env, h, es) != Timeout
    ensures EvalApps(q, more, env, h, es) == EvalApps(q, g, env, h, es)
    decreases more - g
  {
    if g < more {
      AppsMore(q, g, env, h, es);
      AppsAgree(q, g + 1, more, env, h, es);
    }
  }

  lemma {:induction false} SimApps(p: CProg, q: CProg, fuel: nat, r: Renaming, env: seq<CVal>, env': seq<CVal>, h: CVal, h': CVal,
                                   es: seq<CExp>, fs: seq<CExp>)
    returns (g: nat, w: CVal)
    requires Lifts(p, q) && EnvRel(q, r, env, env') && VRel(q, h, h') && BecomesAll(r, es, fs) && EvalApps(p, fuel, env, h, es).Value?
    ensures EvalApps(q, g, env', h', fs) == Value(w) && VRel(q, EvalApps(p, fuel, env, h, es).v, w)
    decreases fuel, 1, es, 0
  {
    hide VRel, Lifts, Becomes, EnvRel;
    if es == [] { g, w := 0, h'; }
    else {
      var v := Eval(p, fuel, env, es[0]).v;
      var h1 := Apply(p, fuel, h, v).v;
      var g1, v' := Sim(p, q, fuel, r, env, env', es[0], fs[0]);
      var g2, h1' := SimApply(p, q, fuel, h, h', v, v');
      var g3;
      g3, w := SimApps(p, q, fuel, r, env, env', h1, h1', es[1..], fs[1..]);
      g := Max(g1, Max(g2, g3));
      YieldsMore(q, v, env', fs[0], g1, v', g);
      ApplyAgree(q, g2, g, h', v');
      AppsAgree(q, g3, g, env', h1', fs[1..]);
    }
  }

  lemma {:induction false} SimApply(p: CProg, q: CProg, fuel: nat, h: CVal, h': CVal, v: CVal, v': CVal)
    returns (g: nat, w: CVal)
    requires Lifts(p, q) && VRel(q, h, h') && VRel(q, v, v') && Apply(p, fuel, h, v).Value?
    ensures Apply(q, g, h', v') == Value(w) && VRel(q, Apply(p, fuel, h, v).v, w)
    decreases fuel, 0
  {
    var x := CloEntry(q, h, h', v');
    hide VRel, Lifts, Becomes;
    var r := x.r;
    EntryEnv(q, h, v, v', x);
    var g1;
    g1, w := Sim(p, q, fuel - 1, x.r, [v] + h.env, x.env, h.body, x.body);
    g := Max(g1, x.fuel) + 1;
    YieldsMore(q, Apply(p, fuel, h, v).v, x.env, x.body, g1, w, g - 1);
    assert Eval(q, g - 1, [v'] + h'.env, h'.body) == Eval(q, g - 1, x.env, x.body);
  }

  lemma CloEntry(q: CProg, h: CVal, h': CVal, a: CVal) returns (x: Entry)
    requires VRel(q, h, h') && h.CVClo?
    ensures h'.CVClo? && Enters(q, h.env, h.body, h', a, x)
  {
    assert EntersWith(q, h.env, h.body, h', a);
    x :| Enters(q, h.env, h.body, h', a, x);
  }

  lemma EntryEnv(q: CProg, h: CVal, v: CVal, v': CVal, x: Entry)
    requires h.CVClo? && |x.r| == 1 + |h.env| && x.r[0] < |x.env| && x.env[x.r[0]] == v' && EnvRel(q, x.r[1..], h.env, x.env) && VRel(q, v, v')
    ensures EnvRel(q, x.r, [v] + h.env, x.env)
  {
    hide VRel;
    forall i | 0 <= i < |x.r| ensures x.r[i] < |x.env| && VRel(q, ([v] + h.env)[i], x.env[x.r[i]]) {
      if i > 0 { assert x.r[1..][i - 1] == x.r[i]; }
    }
  }

  lemma {:induction false} SimForce(p: CProg, q: CProg, fuel: nat, r: Renaming, env: seq<CVal>, env': seq<CVal>, e: CExp, f: CExp)
    returns (g: nat, w: CVal)
    requires Pre(p, q, fuel, r, env, env', e, f) && e.CForce?
    ensures Yields(q, Eval(p, fuel, env, e).v, env', f, g, w)
    decreases fuel, 1, e, 1
  {
    hide VRel, Lifts;
    var t := Eval(p, fuel, env, e.tm).v;
    assert Eval(p, fuel, env, e) == Force(p, fuel, t);
    var g1, t' := Sim(p, q, fuel, r, env, env', e.tm, f.tm);
    var r' := ThunkEnv(q, t, t');
    hide Becomes;
    var g2;
    g2, w := Sim(p, q, fuel - 1, r', t.env, t'.env, t.body, t'.body);
    g := Max(g1, g2 + 1);
    YieldsMore(q, t, env', f.tm, g1, t', g);
    YieldsMore(q, Eval(p, fuel, env, e).v, t'.env, t'.body, g2, w, g - 1);
    assert Eval(q, g, env', f) == Force(q, g, t') == Eval(q, g - 1, t'.env, t'.body);
  }

  lemma ThunkEnv(q: CProg, t: CVal, t': CVal) returns (r: Renaming)
    requires VRel(q, t, t') && t.CVThunk?
    ensures t'.CVThunk? && EnvRel(q, r, t.env, t'.env) && Becomes(r, t.body, t'.body)
  {
    r :| EnvRel(q, r, t.env, t'.env) && Becomes(r, t.body, t'.body);
  }

  lemma {:induction false} SimCall(p: CProg, q: CProg, fuel: nat, n: Name, vs: seq<CVal>, ws: seq<CVal>)
    returns (g: nat, w: CVal)
    requires Lifts(p, q) && VRels(q, vs, ws) && Call(p, fuel, n, vs).Value?
    ensures Call(q, g, n, ws) == Value(w) && VRel(q, Call(p, fuel, n, vs).v, w)
    decreases fuel, 0
  {
    hide VRel, Becomes;
    match p.defs[n]
    case MkFun(args, b) =>
      EnvIdentity(q, vs, ws);
      g, w := Sim(p, q, fuel - 1, Identity(|args|), vs, ws, b, q.defs[n].body);
      g := g + 1;
    case MkForeign(_) => g, w := 0, q.prim(ForeignKey(n), ws).v;
    case MkError(b) =>
      assert EnvRel(q, [], [], []);
      g, w := Sim(p, q, fuel - 1, [], [], [], b, q.defs[n].expl);
      g := g + 1;
  }

  // ----- Case blocks -----

  lemma PickSame(q: CProg, alts: seq<CConAlt>, alts': seq<CConAlt>, x: CVal, y: CVal)
    requires VRel(q, x, y) && AltKeys(alts) == AltKeys(alts')
    ensures PickCon(alts, x) == PickCon(alts', y)
    ensures x.CVCon? ==> y.CVCon? && VRels(q, x.args, y.args)
  {
  }

  lemma PickConstSame(q: CProg, alts: seq<CConstAlt>, alts': seq<CConstAlt>, x: CVal, y: CVal)
    requires VRel(q, x, y) && AltConsts(alts) == AltConsts(alts')
    ensures PickConst(alts, x) == PickConst(alts', y)
  {
  }

  lemma {:induction false} SimConCase(p: CProg, q: CProg, fuel: nat, r: Renaming, env: seq<CVal>, env': seq<CVal>, e: CExp, f: CExp)
    returns (g: nat, w: CVal)
    requires Pre(p, q, fuel, r, env, env', e, f) && e.CConCase?
    ensures Yields(q, Eval(p, fuel, env, e).v, env', f, g, w)
    decreases fuel, 1, e, 1
  {
    hide VRel, Lifts, Eval;
    if PlainCon(r, e, f) {
      g, w := SimConPlain(p, q, fuel, r, env, env', e, f);
    } else {
      assert LiftedCon(r, e, f);
      g, w := 0, CVClo(env', f.body);
      LamYields(q, env', f);
      SimConLifted(p, q, fuel, r, env, env', e, f);
    }
  }

  lemma LamYields(q: CProg, env: seq<CVal>, f: CExp)
    requires f.CLam?
    ensures Eval(q, 0, env, f) == Value(CVClo(env, f.body))
  {
  }

  lemma {:induction false} SimConPlain(p: CProg, q: CProg, fuel: nat, r: Renaming, env: seq<CVal>, env': seq<CVal>, e: CExp, f: CExp)
    returns (g: nat, w: CVal)
    requires Pre(p, q, fuel, r, env, env', e, f) && e.CConCase? && PlainCon(r, e, f)
    ensures Yields(q, Eval(p, fuel, env, e).v, env', f, g, w)
    decreases fuel, 1, e, 0
  {
    hide VRel, Lifts, Becomes, EnvRel;
    var x := Eval(p, fuel, env, e.scr).v;
    var g1, y := Sim(p, q, fuel, r, env, env', e.scr, f.scr);
    PickSame(q, e.conAlts, f.conAlts, x, y);
    var pick, g2 := PickCon(e.conAlts, x), 0;
    if pick.Some? {
      var alt, alt' := e.conAlts[pick.value], f.conAlts[pick.value];
      assert (e.conAlts decreases to alt);
      EnvUnder(q, r, env, env', x.args, y.args);
      g2, w := Sim(p, q, fuel, Up(|x.args|, r), x.args + env, y.args + env', alt.body, alt'.body);
      YieldsMore(q, Eval(p, fuel, env, e).v, y.args + env', alt'.body, g2, w, Max(g1, g2));
    } else {
      g2, w := Sim(p, q, fuel, r, env, env', e.def.value, f.def.value);
      YieldsMore(q, Eval(p, fuel, env, e).v, env', f.def.value, g2, w, Max(g1, g2));
    }
    g := Max(g1, g2);
    YieldsMore(q, x, env', f.scr, g1, y, g);
  }

  lemma ConLeads(q: CProg, g: nat, env: seq<CVal>, n: CExp, y: CVal)
    requires n.CConCase? && Eval(q, g, env, n.scr) == Value(y)
    ensures
      var pick := PickCon(n.conAlts, y);
      if pick.Some? then |n.conAlts[pick.value].args| == |y.args| ==> LeadsTo(q, g, env, n, y.args + env, n.conAlts[pick.value].body)
      else n.def.Some? ==> LeadsTo(q, g, env, n, env, n.def.value)
  {
    forall more: nat | more >= g ensures Eval(q, more, env, n.scr) == Value(y) { EvalAgree(q, g, more, env, n.scr); }
  }

  /** The lambda lifted out of a block agrees with the lambda the block came to. */
  lemma {:induction false} SimConLifted(p: CProg, q: CProg, fuel: nat, r: Renaming, env: seq<CVal>, env': seq<CVal>, e: CExp, f: CExp)
    requires Pre(p, q, fuel, r, env, env', e, f) && e.CConCase? && LiftedCon(r, e, f)
    ensures VRel(q, Eval(p, fuel, env, e).v, CVClo(env', f.body))
    decreases fuel, 1, e, 0
  {
    var w, n := CVClo(env', f.body), f.body;
    var x := Eval(p, fuel, env, e.scr).v;
    var pick := PickCon(e.conAlts, x);
    if pick.Some? {
      var alt := e.conAlts[pick.value];
      assert Eval(p, fuel, env, e) == Value(CVClo(x.args + env, alt.body.body));
      hide VRel, Lifts, Becomes, EnvRel, Eval, LeadsTo;
      forall a: CVal ensures EntersWith(q, x.args + env, alt.body.body, w, a) {
        EnvLater(q, r, env, env', a);
        var g, y := Sim(p, q, fuel, Later(r), env, [a] + env', e.scr, n.scr);
        PickSame(q, e.conAlts, n.conAlts, x, y);
        ConLeads(q, g, [a] + env', n, y);
        EnvMoved(q, r, env, env', x.args, y.args, a);
        assert Enters(q, x.args + env, alt.body.body, w, a, Entry(g, Move(|x.args|, r), y.args + ([a] + env'), n.conAlts[pick.value].body));
      }
      CloRel(q, CVClo(x.args + env, alt.body.body), w);
    } else {
      var b := e.def.value.body;
      assert Eval(p, fuel, env, e) == Value(CVClo(env, b));
      hide VRel, Lifts, Becomes, EnvRel, Eval, LeadsTo;
      forall a: CVal ensures EntersWith(q, env, b, w, a) {
        EnvLater(q, r, env, env', a);
        var g, y := Sim(p, q, fuel, Later(r), env, [a] + env', e.scr, n.scr);
        PickSame(q, e.conAlts, n.conAlts, x, y);
        ConLeads(q, g, [a] + env', n, y);
        DefEnters(q, r, env, env', b, n, n.def.value, g, a);
      }
      CloRel(q, CVClo(env, b), w);
    }
  }

  lemma CloRel(q: CProg, v: CVal, w: CVal)
    requires v.CVClo? && w.CVClo? && forall a: CVal :: EntersWith(q, v.env, v.body, w, a)
    ensures VRel(q, v, w)
  {
  }

  /** A branch that binds nothing. */
  lemma DefEnters(q: CProg, r: Renaming, env: seq<CVal>, env': seq<CVal>, b: CExp, n: CExp, b': CExp, g: nat, a: CVal)
    requires EnvRel(q, r, env, env') && Becomes(Move(0, r), b, b') && LeadsTo(q, g, [a] + env', n, [a] + env', b')
    ensures EntersWith(q, env, b, CVClo(env', n), a)
  {
    hide VRel, Becomes, LeadsTo;
    EnvMoved(q, r, env, env', [], [], a);
    assert [] + env == env && [] + ([a] + env') == [a] + env';
    assert Enters(q, env, b, CVClo(env', n), a, Entry(g, Move(0, r), [a] + env', b'));
  }

  lemma {:induction false} SimConstCase(p: CProg, q: CProg, fuel: nat, r: Renaming, env: seq<CVal>, env': seq<CVal>, e: CExp, f: CExp)
    returns (g: nat, w: CVal)
    requires Pre(p, q, fuel, r, env, env', e, f) && e.CConstCase?
    ensures Yields(q, Eval(p, fuel, env, e).v, env', f, g, w)
    decreases fuel, 1, e, 1
  {
    hide VRel, Lifts, Eval;
    if PlainConst(r, e, f) {
      g, w := SimConstPlain(p, q, fuel, r, env, env', e, f);
    } else {
      assert LiftedConst(r, e, f);
      g, w := 0, CVClo(env', f.body);
      LamYields(q, env', f);
      SimConstLifted(p, q, fuel, r, env, env', e, f);
    }
  }

  lemma {:induction false} SimConstPlain(p: CProg, q: CProg, fuel: nat, r: Renaming, env: seq<CVal>, env': seq<CVal>, e: CExp, f: CExp)
    returns (g: nat, w: CVal)
    requires Pre(p, q, fuel, r, env, env', e, f) && e.CConstCase? && PlainConst(r, e, f)
    ensures Yields(q, Eval(p, fuel, env, e).v, env', f, g, w)
    decreases fuel, 1, e, 0
  {
    hide VRel, Lifts, Becomes, EnvRel;
    var x := Eval(p, fuel, env, e.scr).v;
    var g1, y := Sim(p, q, fuel, r, env, env', e.scr, f.scr);
    PickConstSame(q, e.constAlts, f.constAlts, x, y);
    var pick, g2 := PickConst(e.constAlts, x), 0;
    if pick.Some? {
      var alt, alt' := e.constAlts[pick.value], f.constAlts[pick.value];
      assert (e.constAlts decreases to alt);
      g2, w := Sim(p, q, fuel, r, env, env', alt.body, alt'.body);
      YieldsMore(q, Eval(p, fuel, env, e).v, env', alt'.body, g2, w, Max(g1, g2));
    } else {
      g2, w := Sim(p, q, fuel, r, env, env', e.def.value, f.def.value);
      YieldsMore(q, Eval(p, fuel, env, e).v, env', f.def.value, g2, w, Max(g1, g2));
    }
    g := Max(g1, g2);
    YieldsMore(q, x, env', f.scr, g1, y, g);
  }

  lemma ConstLeads(q: CProg, g: nat, env: seq<CVal>, n: CExp, y: CVal)
    requires n.CConstCase? && Eval(q, g, env, n.scr) == Value(y)
    ensures
      var pick := PickConst(n.constAlts, y);
      if pick.Some? then LeadsTo(q, g, env, n, env, n.constAlts[pick.value].body)
      else n.def.Some? ==> LeadsTo(q, g, env, n, env, n.def.value)
  {
    forall more: nat | more >= g ensures Eval(q, more, env, n.scr) == Value(y) { EvalAgree(q, g, more, env, n.scr); }
  }

  lemma {:induction false} SimConstLifted(p: CProg, q: CProg, fuel: nat, r: Renaming, env: seq<CVal>, env': seq<CVal>, e: CExp, f: CExp)
    requires Pre(p, q, fuel, r, env, env', e, f) && e.CConstCase? && LiftedConst(r, e, f)
    ensures VRel(q, Eval(p, fuel, env, e).v, CVClo(env', f.body))
    decreases fuel, 1, e, 0
  {
    var w, n := CVClo(env', f.body), f.body;
    var x := Eval(p, fuel, env, e.scr).v;
    var pick := PickConst(e.constAlts, x);
    var b := if pick.Some? then e.constAlts[pick.value].body.body else e.def.value.body;
    var b' := if pick.Some? then n.constAlts[pick.value].body else n.def.value;
    assert Eval(p, fuel, env, e) == Value(CVClo(env, b)) && Becomes(Move(0, r), b, b');
    hide VRel, Lifts, Becomes, EnvRel, Eval, LeadsTo;
    forall a: CVal ensures EntersWith(q, env, b, w, a) {
      EnvLater(q, r, env, env', a);
      var g, y := Sim(p, q, fuel, Later(r), env, [a] + env', e.scr, n.scr);
      PickConstSame(q, e.constAlts, n.constAlts, x, y);
      ConstLeads(q, g, [a] + env', n, y);
      DefEnters(q, r, env, env', b, n, b', g, a);
    }
    CloRel(q, CVClo(env, b), w);
  }
}

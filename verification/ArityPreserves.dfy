/** The simulation behind `ArityCorrect`: every value the original run yields is
    yielded, in related form, by the run of the fixed term with enough fuel. */
module ArityPreserves {
  import opened Base
  import opened CExpSyntax
  import opened CExpEval
  import opened CExpFuel
  import opened RenamingCorrect
  import opened MergingCorrect
  import opened Merging
  import opened Arity
  import opened ArityMeaning
  import opened CurriedEval
  import opened ArityCorrect

  // ----- Fuel and lists on the fixed side -----

  lemma {:induction false} ApplyEachAgree(q: CProg, fuel: nat, more: nat, g: CVal, ws: seq<CVal>)
    requires fuel <= more && ApplyEach(q, fuel, g, ws) != Timeout
    ensures ApplyEach(q, more, g, ws) == ApplyEach(q, fuel, g, ws)
    decreases ws
  {
    if ws != [] {
      ApplyAgree(q, fuel, more, g, ws[0]);
      var h := Apply(q, fuel, g, ws[0]);
      if h.Value? { ApplyEachAgree(q, fuel, more, h.v, ws[1..]); }
    }
  }

  /** Applying to terms whose values are known is applying to the values. */
  lemma {:induction false} AppsFromValues(q: CProg, fuel: nat, env: seq<CVal>, g: CVal, es: seq<CExp>)
    requires EvalList(q, fuel, env, es).Value?
    ensures EvalApps(q, fuel, env, g, es) == ApplyEach(q, fuel, g, EvalList(q, fuel, env, es).v)
    decreases es
  {
    if es != [] {
      var w := Eval(q, fuel, env, es[0]).v;
      var ws := EvalList(q, fuel, env, es[1..]).v;
      assert ([w] + ws)[1..] == ws;
      var h := Apply(q, fuel, g, w);
      if h.Value? { AppsFromValues(q, fuel, env, h.v, es[1..]); }
    }
  }

  lemma EvalListSplit(q: CProg, fuel: nat, env: seq<CVal>, es: seq<CExp>, k: nat)
    requires EvalList(q, fuel, env, es).Value? && k <= |es|
    ensures
      var ws := EvalList(q, fuel, env, es).v;
      EvalList(q, fuel, env, es[..k]) == Value(ws[..k]) && EvalList(q, fuel, env, es[k..]) == Value(ws[k..])
  {
    assert es == es[..k] + es[k..];
    EvalListAppend(q, fuel, env, es[..k], es[k..]);
  }

  // ----- Partial applications on the original side -----

  lemma {:induction false} UPapUnder(p: UProg, fuel: nat, n: Name, done: seq<UVal>, vs: seq<UVal>)
    requires n in p.defs && |done| + |vs| < GetArity(p.defs[n])
    ensures UApplyAll(p, fuel, UPap(n, done), vs) == Value(UPap(n, done + vs))
    decreases vs
  {
    if vs == [] {
      assert done + vs == done;
    } else {
      UPapUnder(p, fuel, n, done + [vs[0]], vs[1..]);
      assert done + vs == (done + [vs[0]]) + vs[1..];
    }
  }

  lemma {:induction false} UPapFull(p: UProg, fuel: nat, n: Name, done: seq<UVal>, vs: seq<UVal>)
    requires n in p.defs && |done| < GetArity(p.defs[n]) <= |done| + |vs|
    ensures
      var k := GetArity(p.defs[n]) - |done|;
      UApplyAll(p, fuel, UPap(n, done), vs) ==
        var h :- UCall(p, fuel, n, done + vs[..k]);
        UApplyAll(p, fuel, h, vs[k..])
    decreases vs
  {
    var k := GetArity(p.defs[n]) - |done|;
    if k == 1 {
      assert vs[..1] == [vs[0]];
    } else {
      UPapFull(p, fuel, n, done + [vs[0]], vs[1..]);
      assert done + vs[..k] == (done + [vs[0]]) + vs[1..][..k - 1] && vs[k..] == vs[1..][k - 1..];
    }
  }

  /** A name applied to at least as many arguments as it takes. */
  lemma UNameFull(p: UProg, fuel: nat, n: Name, vs: seq<UVal>)
    requires n in p.defs && GetArity(p.defs[n]) <= |vs| && UName(p, fuel, n).Value?
    ensures
      var k := GetArity(p.defs[n]);
      UApplyAll(p, fuel, UName(p, fuel, n).v, vs) ==
        var h :- UCall(p, fuel, n, vs[..k]);
        UApplyAll(p, fuel, h, vs[k..])
  {
    var k := GetArity(p.defs[n]);
    if k == 0 { assert vs[..0] == [] && vs[0..] == vs; } else {
      UPapFull(p, fuel, n, [], vs);
      assert [] + vs[..k] == vs[..k];
    }
  }

  lemma {:induction false} ExpandUnder(k: nat, n: Name, done: seq<CExp>, xs: seq<CExp>)
    requires |xs| < k
    ensures ExpandToArity(k, CApp(CRef(n), done), xs) == EtaExpand(0, k - |xs|, CApp(CRef(n), done + xs), [])
    decreases k
  {
    if xs == [] {
      assert done + xs == done;
    } else {
      ExpandUnder(k - 1, n, done + [xs[0]], xs[1..]);
      assert done + xs == (done + [xs[0]]) + xs[1..];
    }
  }

  // ----- Related lists -----

  lemma RelCons(c: Context, q: CProg, v: UVal, w: CVal, vs: seq<UVal>, ws: seq<CVal>)
    requires Rel(c, q, v, w) && Same(w, w) && RelAll(c, q, vs, ws)
    ensures RelAll(c, q, [v] + vs, [w] + ws)
  {
    hide Rel, Same;
  }

  lemma RelAppend(c: Context, q: CProg, xs: seq<UVal>, us: seq<CVal>, vs: seq<UVal>, ws: seq<CVal>)
    requires RelAll(c, q, xs, us) && RelAll(c, q, vs, ws)
    ensures RelAll(c, q, xs + vs, us + ws)
  {
    hide Rel, Same;
  }

  lemma RelSlice(c: Context, q: CProg, vs: seq<UVal>, ws: seq<CVal>, k: nat)
    requires RelAll(c, q, vs, ws) && k <= |vs|
    ensures RelAll(c, q, vs[..k], ws[..k]) && RelAll(c, q, vs[k..], ws[k..])
  {
    hide Rel, Same;
  }

  lemma RelNone(c: Context, q: CProg)
    ensures RelAll(c, q, [], [])
  {
  }

  // ----- Calls and applications -----

  lemma FixedDef(p: UProg, q: CProg, n: Name)
    requires Fixes(p, q)
    ensures n in p.defs <==> n in q.defs
    ensures n in p.defs ==> DefOk(ContextOf(p), p.defs[n]) && q.defs[n] == FixArity(ContextOf(p), p.defs[n])
  {
    hide Rel, RelAll, Proper, DefOk, FixArity, ContextOf;
  }

  lemma {:induction false} SimCall(p: UProg, q: CProg, fuel: nat, n: Name, vs: seq<UVal>, ws: seq<CVal>) returns (w: CVal, f: nat)
    requires Fixes(p, q) && RelAll(ContextOf(p), q, vs, ws) && UCall(p, fuel, n, vs).Value?
    ensures Call(q, f, n, ws) == Value(w) && Rel(ContextOf(p), q, UCall(p, fuel, n, vs).v, w) && Same(w, w)
    decreases fuel, 0, 0
  {
    hide Rel, Same, Proper, Fixes, ContextOf, FixArityTm, Scoped, Fixable, Eval, UEval;
    var c := ContextOf(p);
    FixedDef(p, q, n);
    match p.defs[n]
    case MkFun(args, b) =>
      w, f := SimExp(p, q, fuel - 1, vs, ws, b);
      f := f + 1;
    case MkForeign(arity) =>
      SimPrim(p, q, ForeignKey(n), vs, ws);
      w, f := q.prim(ForeignKey(n), ws).v, 0;
    case MkError(b) =>
      RelNone(c, q);
      w, f := SimExp(p, q, fuel - 1, [], [], b);
      f := f + 1;
    case MkCon(_, _) => assert false;
  }

  lemma SimPrim(p: UProg, q: CProg, k: PrimKey, vs: seq<UVal>, ws: seq<CVal>)
    requires Fixes(p, q) && RelAll(ContextOf(p), q, vs, ws) && p.prim(k, vs).Value?
    ensures q.prim(k, ws).Value? && Rel(ContextOf(p), q, p.prim(k, vs).v, q.prim(k, ws).v)
    ensures Same(q.prim(k, ws).v, q.prim(k, ws).v)
  {
    assert SameAll(ws, ws);
    assert SameOutcome(q.prim(k, ws), q.prim(k, ws));
  }

  lemma {:induction false} SimApply(p: UProg, q: CProg, fuel: nat, g: UVal, g': CVal, v: UVal, v': CVal) returns (w: CVal, f: nat)
    requires Fixes(p, q) && Rel(ContextOf(p), q, g, g') && Same(g', g') && Rel(ContextOf(p), q, v, v') && Same(v', v')
    requires UApply(p, fuel, g, v).Value?
    ensures Apply(q, f, g', v') == Value(w) && Rel(ContextOf(p), q, UApply(p, fuel, g, v).v, w) && Same(w, w)
    decreases fuel, 1, 0
  {
    if g.UClo? { w, f := SimApplyClo(p, q, fuel, g, g', v, v'); } else { w, f := SimApplyPap(p, q, fuel, g, g', v, v'); }
  }

  lemma {:induction false} SimApplyClo(p: UProg, q: CProg, fuel: nat, g: UVal, g': CVal, v: UVal, v': CVal) returns (w: CVal, f: nat)
    requires Fixes(p, q) && Rel(ContextOf(p), q, g, g') && Same(g', g') && Rel(ContextOf(p), q, v, v') && Same(v', v')
    requires g.UClo? && UApply(p, fuel, g, v).Value?
    ensures Apply(q, f, g', v') == Value(w) && Rel(ContextOf(p), q, UApply(p, fuel, g, v).v, w) && Same(w, w)
    decreases fuel, 0, 1
  {
    hide Rel, Same, FixArityTm, Scoped, Fixable, Eval, UEval, Proper;
    var c := ContextOf(p);
    var env0 := CloParts(c, q, g, g');
    RelCons(c, q, v, v', g.env, env0);
    assert |[v] + g.env| == 1 + |g.env|;
    var w0, f0 := SimExp(p, q, fuel - 1, [v] + g.env, [v'] + env0, g.body);
    var g0 := CVClo(env0, FixArityTm(c, g.body, []));
    f := f0 + 1;
    assert Apply(q, f, g0, v') == Value(w0);
    ApplySame(q, f, g0, g', v', v');
    w := Apply(q, f, g', v').v;
    RelSame(c, q, UApply(p, fuel, g, v).v, w0, w);
    ApplySame(q, f, g', g', v', v');
  }

  lemma {:induction false} SimApplyPap(p: UProg, q: CProg, fuel: nat, g: UVal, g': CVal, v: UVal, v': CVal) returns (w: CVal, f: nat)
    requires Fixes(p, q) && Rel(ContextOf(p), q, g, g') && Same(g', g') && Rel(ContextOf(p), q, v, v') && Same(v', v')
    requires !g.UClo? && UApply(p, fuel, g, v).Value?
    ensures Apply(q, f, g', v') == Value(w) && Rel(ContextOf(p), q, UApply(p, fuel, g, v).v, w) && Same(w, w)
    decreases fuel, 0, 1
  {
    hide Rel, Same, FixArityTm, Scoped, Fixable, Eval, UEval, Proper, Apply, Call, UCall;
    var c := ContextOf(p);
    var n, k := g.n, GetArity(p.defs[g.n]);
    var ws := PapParts(c, q, g, g');
    RelNone(c, q);
    RelCons(c, q, v, v', [], []);
    RelAppend(c, q, g.args, ws, [v] + [], [v'] + []);
    assert [v] + [] == [v] && [v'] + [] == [v'];
    if |g.args| + 1 < k {
      f, w := 1, Apply(q, 1, g', v').v;
      PapRel(c, q, n, g.args + [v], ws + [v'], w);
      ApplySame(q, 1, g', g', v', v');
    } else {
      var y, f1 := SimCall(p, q, fuel, n, g.args + [v], ws + [v']);
      assert Answers(q, g', v', y);
      f :| Apply(q, f, g', v').Value? && Same(y, Apply(q, f, g', v').v);
      w := Apply(q, f, g', v').v;
      RelSame(c, q, UApply(p, fuel, g, v).v, y, w);
      ApplySame(q, f, g', g', v', v');
    }
  }

  lemma {:induction false} SimApplyAll(p: UProg, q: CProg, fuel: nat, g: UVal, g': CVal, vs: seq<UVal>, ws: seq<CVal>)
    returns (w: CVal, f: nat)
    requires Fixes(p, q) && Rel(ContextOf(p), q, g, g') && Same(g', g') && RelAll(ContextOf(p), q, vs, ws)
    requires UApplyAll(p, fuel, g, vs).Value?
    ensures ApplyEach(q, f, g', ws) == Value(w) && Rel(ContextOf(p), q, UApplyAll(p, fuel, g, vs).v, w) && Same(w, w)
    decreases fuel, 1, |vs| + 1
  {
    var c := ContextOf(p);
    if vs == [] {
      w, f := g', 0;
    } else {
      assert Rel(c, q, vs[0], ws[0]) && Same(ws[0], ws[0]);
      hide Rel, Same, Apply, UApply, Proper;
      var h', f1 := SimApply(p, q, fuel, g, g', vs[0], ws[0]);
      var h := UApply(p, fuel, g, vs[0]).v;
      RelSlice(c, q, vs, ws, 1);
      var f2;
      w, f2 := SimApplyAll(p, q, fuel, h, h', vs[1..], ws[1..]);
      f := Max(f1, f2);
      ApplyAgree(q, f1, f, g', ws[0]);
      ApplyEachAgree(q, f2, f, h', ws[1..]);
    }
  }

  lemma {:induction false} SimForce(p: UProg, q: CProg, fuel: nat, v: UVal, v': CVal) returns (w: CVal, f: nat)
    requires Fixes(p, q) && Rel(ContextOf(p), q, v, v') && Same(v', v') && UForce(p, fuel, v).Value?
    ensures Force(q, f, v') == Value(w) && Rel(ContextOf(p), q, UForce(p, fuel, v).v, w) && Same(w, w)
    decreases fuel, 1
  {
    hide Rel, Same, FixArityTm, Scoped, Fixable, Eval, UEval, Proper;
    var c := ContextOf(p);
    var env0 := ThunkParts(c, q, v, v');
    var w0, f0 := SimExp(p, q, fuel - 1, v.env, env0, v.body);
    var v0 := CVThunk(env0, FixArityTm(c, v.body, []));
    f := f0 + 1;
    assert Force(q, f, v0) == Value(w0);
    ForceSame(q, f, v0, v');
    w := Force(q, f, v').v;
    RelSame(c, q, UForce(p, fuel, v).v, w0, w);
    ForceSame(q, f, v', v');
  }

  // ----- Terms -----

  /** A fixed term yields the value related to what the original yields. */
  lemma {:induction false} SimExp(p: UProg, q: CProg, fuel: nat, env: seq<UVal>, env': seq<CVal>, e: CExp) returns (w: CVal, f: nat)
    requires Fixes(p, q) && RelAll(ContextOf(p), q, env, env') && Scoped(e, |env|) && Fixable(ContextOf(p), e)
    requires UEval(p, fuel, env, e).Value?
    ensures Eval(q, f, env', FixArityTm(ContextOf(p), e, [])) == Value(w)
    ensures Rel(ContextOf(p), q, UEval(p, fuel, env, e).v, w) && Same(w, w)
    decreases fuel, 3, e, 2
  {
    hide Rel, Same, Proper, FixArityTm, Scoped, Fixable, Eval, UEval;
    RelNone(ContextOf(p), q);
    w, f := SimSpine(p, q, fuel, env, env', e, [], [], [], 0);
  }

  /** A term and, on a stack, fixed arguments that come to `ws`. */
  lemma {:induction false} SimSpine(p: UProg, q: CProg, fuel: nat, env: seq<UVal>, env': seq<CVal>, e: CExp,
                                    xs: seq<CExp>, vs: seq<UVal>, ws: seq<CVal>, f0: nat) returns (w: CVal, f: nat)
    requires Fixes(p, q) && RelAll(ContextOf(p), q, env, env') && Scoped(e, |env|) && Fixable(ContextOf(p), e)
    requires AllScoped(xs, |env|) && (e.CCon? || e.COp? || e.CExtPrim? ==> xs == [])
    requires EvalList(q, f0, env', xs) == Value(ws) && RelAll(ContextOf(p), q, vs, ws)
    requires UEval(p, fuel, env, e).Value? && UApplyAll(p, fuel, UEval(p, fuel, env, e).v, vs).Value?
    ensures Eval(q, f, env', FixArityTm(ContextOf(p), e, xs)) == Value(w)
    ensures Rel(ContextOf(p), q, UApplyAll(p, fuel, UEval(p, fuel, env, e).v, vs).v, w) && Same(w, w)
    decreases fuel, 3, e, 1
  {
    if e.CApp? {
      w, f := SimApp(p, q, fuel, env, env', e, xs, vs, ws, f0);
    } else if e.CRef? {
      w, f := SimName(p, q, fuel, e.n, env', xs, vs, ws, f0);
    } else {
      w, f := SimOther(p, q, fuel, env, env', e, xs, vs, ws, f0);
    }
  }

  lemma {:induction false} SimApp(p: UProg, q: CProg, fuel: nat, env: seq<UVal>, env': seq<CVal>, e: CExp,
                                  xs: seq<CExp>, vs: seq<UVal>, ws: seq<CVal>, f0: nat) returns (w: CVal, f: nat)
    requires Fixes(p, q) && RelAll(ContextOf(p), q, env, env') && Scoped(e, |env|) && Fixable(ContextOf(p), e) && e.CApp?
    requires AllScoped(xs, |env|) && EvalList(q, f0, env', xs) == Value(ws) && RelAll(ContextOf(p), q, vs, ws)
    requires UEval(p, fuel, env, e).Value? && UApplyAll(p, fuel, UEval(p, fuel, env, e).v, vs).Value?
    ensures Eval(q, f, env', FixArityTm(ContextOf(p), e, xs)) == Value(w)
    ensures Rel(ContextOf(p), q, UApplyAll(p, fuel, UEval(p, fuel, env, e).v, vs).v, w) && Same(w, w)
    decreases fuel, 3, e, 0
  {
    var c := ContextOf(p);
    var g := UEval(p, fuel, env, e.f).v;
    assert UEval(p, fuel, env, e) == UApps(p, fuel, env, g, e.args);
    UAppsSplit(p, fuel, env, g, e.args);
    var zs := UEvalList(p, fuel, env, e.args).v;
    UApplyAppend(p, fuel, g, zs, vs);
    AppShape(c, e, xs);
    FixAllScoped(c, e.args, |env|);
    hide Rel, Same, Proper, Fixable, Scoped, Eval, UEval, FixArityTm;
    var us, f1 := SimList(p, q, fuel, env, env', e.args);
    var k := Max(f0, f1);
    ListAgree(q, f0, k, env', xs);
    ListAgree(q, f1, k, env', FixAll(c, e.args));
    EvalListAppend(q, k, env', FixAll(c, e.args), xs);
    RelAppend(c, q, zs, us, vs, ws);
    w, f := SimSpine(p, q, fuel, env, env', e.f, FixAll(c, e.args) + xs, zs + vs, us + ws, k);
  }

  lemma AppShape(c: Context, e: CExp, xs: seq<CExp>)
    requires e.CApp? && Fixable(c, e)
    ensures FixArityTm(c, e, xs) == FixArityTm(c, e.f, FixAll(c, e.args) + xs)
    ensures Fixable(c, e.f) && (forall i :: 0 <= i < |e.args| ==> Fixable(c, e.args[i]))
    ensures !e.f.CCon? && !e.f.COp? && !e.f.CExtPrim?
  {
    assert seq(|e.args|, i requires 0 <= i < |e.args| => FixArityTm(c, e.args[i], [])) == FixAll(c, e.args);
  }

  lemma {:induction false} SimList(p: UProg, q: CProg, fuel: nat, env: seq<UVal>, env': seq<CVal>, es: seq<CExp>)
    returns (ws: seq<CVal>, f: nat)
    requires Fixes(p, q) && RelAll(ContextOf(p), q, env, env') && AllScoped(es, |env|)
    requires (forall i :: 0 <= i < |es| ==> Fixable(ContextOf(p), es[i])) && UEvalList(p, fuel, env, es).Value?
    ensures EvalList(q, f, env', FixAll(ContextOf(p), es)) == Value(ws)
    ensures RelAll(ContextOf(p), q, UEvalList(p, fuel, env, es).v, ws)
    decreases fuel, 3, es
  {
    var c := ContextOf(p);
    if es == [] {
      RelNone(c, q);
      ws, f := [], 0;
    } else {
      hide Rel, Same, Proper, FixArityTm, Scoped, Fixable, Eval, UEval;
      var w1, f1 := SimExp(p, q, fuel, env, env', es[0]);
      var ws2, f2 := SimList(p, q, fuel, env, env', es[1..]);
      f, ws := Max(f1, f2), [w1] + ws2;
      EvalAgree(q, f1, f, env', FixArityTm(c, es[0], []));
      ListAgree(q, f2, f, env', FixAll(c, es[1..]));
      assert FixAll(c, es)[1..] == FixAll(c, es[1..]);
      RelCons(c, q, UEval(p, fuel, env, es[0]).v, w1, UEvalList(p, fuel, env, es[1..]).v, ws2);
    }
  }

  lemma FixName(p: UProg, n: Name, xs: seq<CExp>)
    requires n in p.defs
    ensures FixArityTm(ContextOf(p), CRef(n), xs) == ExpandToArity(GetArity(p.defs[n]), CApp(CRef(n), []), xs)
  {
  }

  /** A name: exactly applied, over-applied, or short of arguments. */
  lemma {:induction false} SimName(p: UProg, q: CProg, fuel: nat, n: Name, env': seq<CVal>,
                                   xs: seq<CExp>, vs: seq<UVal>, ws: seq<CVal>, f0: nat) returns (w: CVal, f: nat)
    requires Fixes(p, q) && GoodEnv(env') && AllScoped(xs, |env'|)
    requires EvalList(q, f0, env', xs) == Value(ws) && RelAll(ContextOf(p), q, vs, ws)
    requires UName(p, fuel, n).Value? && UApplyAll(p, fuel, UName(p, fuel, n).v, vs).Value?
    ensures Eval(q, f, env', FixArityTm(ContextOf(p), CRef(n), xs)) == Value(w)
    ensures Rel(ContextOf(p), q, UApplyAll(p, fuel, UName(p, fuel, n).v, vs).v, w) && Same(w, w)
    decreases fuel, 2
  {
    hide Rel, Same, Proper, FixArityTm, ExpandToArity, Eval, EvalList, UEval, UCall, Call, Scoped, Fixable;
    var k := GetArity(p.defs[n]);
    FixName(p, n, xs);
    if |xs| < k {
      UPapUnder(p, fuel, n, [], vs);
      assert [] + vs == vs;
      w, f := SimUnder(p, q, n, env', xs, vs, ws, f0);
    } else {
      UNameFull(p, fuel, n, vs);
      w, f := SimFull(p, q, fuel, n, env', xs, vs, ws, f0);
    }
  }

  lemma {:induction false} SimUnder(p: UProg, q: CProg, n: Name, env': seq<CVal>,
                                    xs: seq<CExp>, vs: seq<UVal>, ws: seq<CVal>, f0: nat) returns (w: CVal, f: nat)
    requires Fixes(p, q) && GoodEnv(env') && AllScoped(xs, |env'|) && n in p.defs && |xs| < GetArity(p.defs[n])
    requires EvalList(q, f0, env', xs) == Value(ws) && RelAll(ContextOf(p), q, vs, ws)
    ensures Eval(q, f, env', ExpandToArity(GetArity(p.defs[n]), CApp(CRef(n), []), xs)) == Value(w)
    ensures Rel(ContextOf(p), q, UPap(n, vs), w) && Same(w, w)
  {
    hide *;
    var c, k := ContextOf(p), GetArity(p.defs[n]);
    var e := EtaExpand(0, k - |xs|, CApp(CRef(n), xs), []);
    UnderFacts(p, q, n, env', xs, vs, ws);
    NonePicked(env', ws);
    assert [] + xs == xs;
    ExpandUnder(k, n, [], xs);
    EtaScoped(0, k - |xs|, CApp(CRef(n), xs), [], |env'|);
    EtaLacks(q, env', n, 0, k - |xs|, xs, [], f0, ws);
    w, f := CVClo(env', e.body), 0;
    EvalLam(q, env', e);
    CloGood(q, env', e);
    PapRel(c, q, n, vs, ws, w);
  }

  lemma UnderFacts(p: UProg, q: CProg, n: Name, env': seq<CVal>, xs: seq<CExp>, vs: seq<UVal>, ws: seq<CVal>)
    requires Fixes(p, q) && n in p.defs && RelAll(ContextOf(p), q, vs, ws) && AllScoped(xs, |env'|)
    ensures Proper(q) && |vs| == |ws| && n in ContextOf(p) && ArityOf(ContextOf(p), n) == GetArity(p.defs[n])
    ensures Scoped(CApp(CRef(n), xs), |env'|)
  {
    hide Rel, Same, Proper, DefOk, FixArity, Fixable, GoodEnv;
    KnownArity(p, n);
    assert Proper(q);
    hide Fixes;
  }

  lemma KnownArity(p: UProg, n: Name)
    requires n in p.defs
    ensures n in ContextOf(p) && ArityOf(ContextOf(p), n) == GetArity(p.defs[n])
  {
  }

  lemma NonePicked(env: seq<CVal>, ws: seq<CVal>)
    ensures ws + Pick(env, Reverse([])) == ws
  {
  }

  lemma EvalLam(q: CProg, env: seq<CVal>, e: CExp)
    requires e.CLam?
    ensures Eval(q, 0, env, e) == Value(CVClo(env, e.body))
  {
  }

  lemma {:induction false} SimFull(p: UProg, q: CProg, fuel: nat, n: Name, env': seq<CVal>,
                                   xs: seq<CExp>, vs: seq<UVal>, ws: seq<CVal>, f0: nat) returns (w: CVal, f: nat)
    requires Fixes(p, q) && GoodEnv(env') && n in p.defs && GetArity(p.defs[n]) <= |xs|
    requires EvalList(q, f0, env', xs) == Value(ws) && RelAll(ContextOf(p), q, vs, ws)
    requires UCall(p, fuel, n, vs[..GetArity(p.defs[n])]).Value?
    requires UApplyAll(p, fuel, UCall(p, fuel, n, vs[..GetArity(p.defs[n])]).v, vs[GetArity(p.defs[n])..]).Value?
    ensures Eval(q, f, env', ExpandToArity(GetArity(p.defs[n]), CApp(CRef(n), []), xs)) == Value(w)
    ensures Rel(ContextOf(p), q,
      UApplyAll(p, fuel, UCall(p, fuel, n, vs[..GetArity(p.defs[n])]).v, vs[GetArity(p.defs[n])..]).v, w) && Same(w, w)
    decreases fuel, 1, |vs| + 2
  {
    hide Rel, Same, Proper, Eval, Call, UCall, ExpandToArity;
    var c, k := ContextOf(p), GetArity(p.defs[n]);
    RelSlice(c, q, vs, ws, k);
    var h', f1 := SimCall(p, q, fuel, n, vs[..k], ws[..k]);
    var h := UCall(p, fuel, n, vs[..k]).v;
    var f2;
    w, f2 := SimApplyAll(p, q, fuel, h, h', vs[k..], ws[k..]);
    f := Max(f0, Max(f1, f2));
    ListAgree(q, f0, f, env', xs);
    EvalListSplit(q, f, env', xs, k);
    CallAgree(q, f1, f, n, ws[..k]);
    ApplyEachAgree(q, f2, f, h', ws[k..]);
    AppsFromValues(q, f, env', h', xs[k..]);
    assert [] + xs[..k] == xs[..k] && ws[..k] + [] == ws[..k];
    ExpandOverMeaning(q, f, env', n, k, [], xs);
  }

  lemma {:induction false} SimOther(p: UProg, q: CProg, fuel: nat, env: seq<UVal>, env': seq<CVal>, e: CExp,
                                    xs: seq<CExp>, vs: seq<UVal>, ws: seq<CVal>, f0: nat) returns (w: CVal, f: nat)
    requires Fixes(p, q) && RelAll(ContextOf(p), q, env, env') && Scoped(e, |env|) && Fixable(ContextOf(p), e)
    requires !e.CApp? && !e.CRef? && (e.CCon? || e.COp? || e.CExtPrim? ==> xs == [])
    requires EvalList(q, f0, env', xs) == Value(ws) && RelAll(ContextOf(p), q, vs, ws)
    requires UEval(p, fuel, env, e).Value? && UApplyAll(p, fuel, UEval(p, fuel, env, e).v, vs).Value?
    ensures Eval(q, f, env', FixArityTm(ContextOf(p), e, xs)) == Value(w)
    ensures Rel(ContextOf(p), q, UApplyAll(p, fuel, UEval(p, fuel, env, e).v, vs).v, w) && Same(w, w)
    decreases fuel, 3, e, 0
  {
    var c := ContextOf(p);
    FixIsHead(c, e, xs);
    NotErased(p, fuel, env, e, vs);
    HeadForm(c, e);
    hide Rel, Same, Proper, FixArityTm, Scoped, Fixable, Eval, UEval, Head;
    var g', f1 := SimHead(p, q, fuel, env, env', e);
    var g := UEval(p, fuel, env, e).v;
    if xs == [] {
      w, f := g', f1;
    } else {
      var f2;
      w, f2 := SimApplyAll(p, q, fuel, g, g', vs, ws);
      f := Max(f0, Max(f1, f2));
      ListAgree(q, f0, f, env', xs);
      EvalAgree(q, f1, f, env', Head(c, e));
      ApplyEachAgree(q, f2, f, g', ws);
      AppsFromValues(q, f, env', g', xs);
      UnloadMeaning(q, f, env', xs, Head(c, e));
    }
  }

  lemma NotErased(p: UProg, fuel: nat, env: seq<UVal>, e: CExp, vs: seq<UVal>)
    requires UEval(p, fuel, env, e).Value? && UApplyAll(p, fuel, UEval(p, fuel, env, e).v, vs).Value?
    ensures e.CErased? ==> vs == []
  {
  }

  lemma HeadForm(c: Context, e: CExp)
    requires !e.CApp? && !e.CRef?
    ensures !Head(c, e).CRef? && (Head(c, e).CErased? <==> e.CErased?)
  {
  }

  lemma {:induction false} SimHead(p: UProg, q: CProg, fuel: nat, env: seq<UVal>, env': seq<CVal>, e: CExp) returns (w: CVal, f: nat)
    requires Fixes(p, q) && RelAll(ContextOf(p), q, env, env') && Scoped(e, |env|) && Fixable(ContextOf(p), e)
    requires !e.CApp? && !e.CRef? && UEval(p, fuel, env, e).Value?
    ensures Eval(q, f, env', Head(ContextOf(p), e)) == Value(w)
    ensures Rel(ContextOf(p), q, UEval(p, fuel, env, e).v, w) && Same(w, w)
    decreases fuel, 3, e, 0, 1
  {
    var c := ContextOf(p);
    match e
    case CLocal(i) =>
      RelAt(c, q, env, env', i);
      w, f := env'[i], 0;
    case CLam(_, b) =>
      w := SimLam(p, q, env, env', b);
      f := 0;
    case CDelay(_, b) =>
      w := SimDelay(p, q, env, env', b);
      f := 0;
    case CLet(_, _, _, _) => w, f := SimLet(p, q, fuel, env, env', e);
    case CCon(n, t, xs) => w, f := SimCon(p, q, fuel, env, env', e);
    case COp(_, _, _) => w, f := SimOp(p, q, fuel, env, env', e);
    case CExtPrim(_, _) => w, f := SimOp(p, q, fuel, env, env', e);
    case CForce(_, t) => w, f := SimForced(p, q, fuel, env, env', e);
    case CConCase(_, _, _) => w, f := SimConCase(p, q, fuel, env, env', e);
    case CConstCase(_, _, _) => w, f := SimConstCase(p, q, fuel, env, env', e);
    case CPrimVal(k) => w, f := CVConst(k), 0;
    case CErased => w, f := CVErased, 0;
    case CCrash(_) => assert false;
  }

  lemma RelAt(c: Context, q: CProg, vs: seq<UVal>, ws: seq<CVal>, i: nat)
    requires RelAll(c, q, vs, ws) && i < |vs|
    ensures Rel(c, q, vs[i], ws[i]) && Same(ws[i], ws[i])
  {
    hide Rel, Same;
  }

  lemma SimLam(p: UProg, q: CProg, env: seq<UVal>, env': seq<CVal>, b: CExp) returns (w: CVal)
    requires RelAll(ContextOf(p), q, env, env') && Scoped(b, 1 + |env|) && Fixable(ContextOf(p), b)
    ensures w == CVClo(env', FixArityTm(ContextOf(p), b, [])) && Rel(ContextOf(p), q, UClo(env, b), w) && Same(w, w)
  {
    hide Rel, Same, FixArityTm, Fixable;
    var c := ContextOf(p);
    FixScoped(c, b, [], 1 + |env|);
    w := CVClo(env', FixArityTm(c, b, []));
    CloGood(q, env', CLam(Ext(0), FixArityTm(c, b, [])));
    CloRel(c, q, env, b, env', w);
  }

  lemma SimDelay(p: UProg, q: CProg, env: seq<UVal>, env': seq<CVal>, b: CExp) returns (w: CVal)
    requires RelAll(ContextOf(p), q, env, env') && Scoped(b, |env|) && Fixable(ContextOf(p), b)
    ensures w == CVThunk(env', FixArityTm(ContextOf(p), b, [])) && Rel(ContextOf(p), q, UThunk(env, b), w) && Same(w, w)
  {
    hide Rel, Same, FixArityTm, Fixable;
    var c := ContextOf(p);
    FixScoped(c, b, [], |env|);
    w := CVThunk(env', FixArityTm(c, b, []));
    ThunkGood(env', FixArityTm(c, b, []));
    ThunkRel(c, q, env, b, env', w);
  }

  lemma ThunkGood(env: seq<CVal>, b: CExp)
    requires GoodEnv(env) && Scoped(b, |env|)
    ensures Same(CVThunk(env, b), CVThunk(env, b))
  {
    hide Same;
    assert SameEnv(Identity(|env|), env, env);
    ThunkSame(Identity(|env|), env, env, b);
    RenIdentity(b, |env|);
  }

  lemma {:induction false} SimLet(p: UProg, q: CProg, fuel: nat, env: seq<UVal>, env': seq<CVal>, e: CExp) returns (w: CVal, f: nat)
    requires Fixes(p, q) && RelAll(ContextOf(p), q, env, env') && Scoped(e, |env|) && Fixable(ContextOf(p), e) && e.CLet?
    requires UEval(p, fuel, env, e).Value?
    ensures Eval(q, f, env', Head(ContextOf(p), e)) == Value(w)
    ensures Rel(ContextOf(p), q, UEval(p, fuel, env, e).v, w) && Same(w, w)
    decreases fuel, 3, e, 0, 0
  {
    hide Rel, Same, FixArityTm;
    var c := ContextOf(p);
    var w1, f1 := SimExp(p, q, fuel, env, env', e.val);
    var x := UEval(p, fuel, env, e.val).v;
    RelCons(c, q, x, w1, env, env');
    var f2;
    w, f2 := SimExp(p, q, fuel, [x] + env, [w1] + env', e.sc);
    f := Max(f1, f2);
    EvalAgree(q, f1, f, env', FixArityTm(c, e.val, []));
    EvalAgree(q, f2, f, [w1] + env', FixArityTm(c, e.sc, []));
  }

  lemma ConRel(c: Context, q: CProg, k: ConKey, vs: seq<UVal>, ws: seq<CVal>)
    requires RelAll(c, q, vs, ws)
    ensures Rel(c, q, UCon(k, vs), CVCon(k, ws)) && Same(CVCon(k, ws), CVCon(k, ws))
  {
  }

  lemma {:induction false} SimCon(p: UProg, q: CProg, fuel: nat, env: seq<UVal>, env': seq<CVal>, e: CExp) returns (w: CVal, f: nat)
    requires Fixes(p, q) && RelAll(ContextOf(p), q, env, env') && Scoped(e, |env|) && Fixable(ContextOf(p), e) && e.CCon?
    requires UEval(p, fuel, env, e).Value?
    ensures Eval(q, f, env', Head(ContextOf(p), e)) == Value(w)
    ensures Rel(ContextOf(p), q, UEval(p, fuel, env, e).v, w) && Same(w, w)
    decreases fuel, 3, e, 0, 0
  {
    hide Rel, Same, FixArityTm;
    var ws;
    ws, f := SimList(p, q, fuel, env, env', e.args);
    w := CVCon(KeyOf(e.con, e.tag), ws);
    ConRel(ContextOf(p), q, KeyOf(e.con, e.tag), UEvalList(p, fuel, env, e.args).v, ws);
  }

  lemma {:induction false} SimOp(p: UProg, q: CProg, fuel: nat, env: seq<UVal>, env': seq<CVal>, e: CExp) returns (w: CVal, f: nat)
    requires Fixes(p, q) && RelAll(ContextOf(p), q, env, env') && Scoped(e, |env|) && Fixable(ContextOf(p), e)
    requires (e.COp? || e.CExtPrim?) && UEval(p, fuel, env, e).Value?
    ensures Eval(q, f, env', Head(ContextOf(p), e)) == Value(w)
    ensures Rel(ContextOf(p), q, UEval(p, fuel, env, e).v, w) && Same(w, w)
    decreases fuel, 3, e, 0, 0
  {
    hide Rel, Same, FixArityTm;
    var ws;
    ws, f := SimList(p, q, fuel, env, env', e.args);
    var k := if e.COp? then OpKey(e.op) else ExtKey(e.p);
    SimPrim(p, q, k, UEvalList(p, fuel, env, e.args).v, ws);
    w := q.prim(k, ws).v;
  }

  lemma {:induction false} SimForced(p: UProg, q: CProg, fuel: nat, env: seq<UVal>, env': seq<CVal>, e: CExp) returns (w: CVal, f: nat)
    requires Fixes(p, q) && RelAll(ContextOf(p), q, env, env') && Scoped(e, |env|) && Fixable(ContextOf(p), e) && e.CForce?
    requires UEval(p, fuel, env, e).Value?
    ensures Eval(q, f, env', Head(ContextOf(p), e)) == Value(w)
    ensures Rel(ContextOf(p), q, UEval(p, fuel, env, e).v, w) && Same(w, w)
    decreases fuel, 3, e, 0, 0
  {
    hide Rel, Same, FixArityTm;
    var w1, f1 := SimExp(p, q, fuel, env, env', e.tm);
    var f2;
    w, f2 := SimForce(p, q, fuel, UEval(p, fuel, env, e.tm).v, w1);
    f := Max(f1, f2);
    EvalAgree(q, f1, f, env', FixArityTm(ContextOf(p), e.tm, []));
    ForceAgree(q, f2, f, w1);
  }

  lemma RelPick(c: Context, q: CProg, alts: seq<CConAlt>, alts': seq<CConAlt>, v: UVal, w: CVal)
    requires Rel(c, q, v, w) && Same(w, w) && |alts| == |alts'|
    requires forall i :: 0 <= i < |alts| ==> alts'[i].con == alts[i].con && alts'[i].tag == alts[i].tag
    ensures UPickCon(alts, v) == PickCon(alts', w)
    ensures v.UCon? ==> w.CVCon? && RelAll(c, q, v.args, w.args)
  {
    KeysSame(alts, alts');
    RelShape(c, q, v, w);
    hide Rel, Same, RelAll, AltKeys;
  }

  lemma KeysSame(alts: seq<CConAlt>, alts': seq<CConAlt>)
    requires |alts| == |alts'|
    requires forall i :: 0 <= i < |alts| ==> alts'[i].con == alts[i].con && alts'[i].tag == alts[i].tag
    ensures AltKeys(alts') == seq(|alts|, i requires 0 <= i < |alts| => KeyOf(alts[i].con, alts[i].tag))
  {
  }

  lemma RelShape(c: Context, q: CProg, v: UVal, w: CVal)
    requires Rel(c, q, v, w) && Same(w, w)
    ensures v.UCon? <==> w.CVCon?
    ensures v.UCon? ==> w.key == v.key && RelAll(c, q, v.args, w.args)
  {
  }

  lemma {:induction false} SimConCase(p: UProg, q: CProg, fuel: nat, env: seq<UVal>, env': seq<CVal>, e: CExp) returns (w: CVal, f: nat)
    requires Fixes(p, q) && RelAll(ContextOf(p), q, env, env') && Scoped(e, |env|) && Fixable(ContextOf(p), e) && e.CConCase?
    requires UEval(p, fuel, env, e).Value?
    ensures Eval(q, f, env', Head(ContextOf(p), e)) == Value(w)
    ensures Rel(ContextOf(p), q, UEval(p, fuel, env, e).v, w) && Same(w, w)
    decreases fuel, 3, e, 0, 0
  {
    hide Rel, Same, FixArityTm, Proper;
    var c, h := ContextOf(p), Head(ContextOf(p), e);
    var x := UEval(p, fuel, env, e.scr).v;
    var x', f1 := SimExp(p, q, fuel, env, env', e.scr);
    RelPick(c, q, e.conAlts, h.conAlts, x, x');
    var pick := UPickCon(e.conAlts, x);
    var f2;
    if pick.Some? {
      var alt := e.conAlts[pick.value];
      assert (e.conAlts decreases to e.conAlts[pick.value]);
      RelAppend(c, q, x.args, x'.args, env, env');
      w, f2 := SimExp(p, q, fuel, x.args + env, x'.args + env', alt.body);
      f := Max(f1, f2);
      EvalAgree(q, f2, f, x'.args + env', FixArityTm(c, alt.body, []));
    } else {
      w, f2 := SimExp(p, q, fuel, env, env', e.def.value);
      f := Max(f1, f2);
      EvalAgree(q, f2, f, env', FixArityTm(c, e.def.value, []));
    }
    EvalAgree(q, f1, f, env', FixArityTm(c, e.scr, []));
  }

  lemma RelPickConst(c: Context, q: CProg, alts: seq<CConstAlt>, alts': seq<CConstAlt>, v: UVal, w: CVal)
    requires Rel(c, q, v, w) && |alts| == |alts'| && forall i :: 0 <= i < |alts| ==> alts'[i].c == alts[i].c
    ensures UPickConst(alts, v) == PickConst(alts', w)
  {
    assert AltConsts(alts') == seq(|alts|, i requires 0 <= i < |alts| => alts[i].c);
  }

  lemma {:induction false} SimConstCase(p: UProg, q: CProg, fuel: nat, env: seq<UVal>, env': seq<CVal>, e: CExp) returns (w: CVal, f: nat)
    requires Fixes(p, q) && RelAll(ContextOf(p), q, env, env') && Scoped(e, |env|) && Fixable(ContextOf(p), e) && e.CConstCase?
    requires UEval(p, fuel, env, e).Value?
    ensures Eval(q, f, env', Head(ContextOf(p), e)) == Value(w)
    ensures Rel(ContextOf(p), q, UEval(p, fuel, env, e).v, w) && Same(w, w)
    decreases fuel, 3, e, 0, 0
  {
    hide Rel, Same, FixArityTm, Proper;
    var c, h := ContextOf(p), Head(ContextOf(p), e);
    var x := UEval(p, fuel, env, e.scr).v;
    var x', f1 := SimExp(p, q, fuel, env, env', e.scr);
    RelPickConst(c, q, e.constAlts, h.constAlts, x, x');
    var pick := UPickConst(e.constAlts, x);
    var f2;
    if pick.Some? {
      assert (e.constAlts decreases to e.constAlts[pick.value]);
      w, f2 := SimExp(p, q, fuel, env, env', e.constAlts[pick.value].body);
      f := Max(f1, f2);
      EvalAgree(q, f2, f, env', FixArityTm(c, e.constAlts[pick.value].body, []));
    } else {
      w, f2 := SimExp(p, q, fuel, env, env', e.def.value);
      f := Max(f1, f2);
      EvalAgree(q, f2, f, env', FixArityTm(c, e.def.value, []));
    }
    EvalAgree(q, f1, f, env', FixArityTm(c, e.scr, []));
  }

  // ----- The main result -----

  /** A value without functions or delayed terms. */
  predicate IsData(v: UVal)
    decreases v
  {
    match v
    case UCon(_, xs) => forall i :: 0 <= i < |xs| ==> IsData(xs[i])
    case UConst(_) => true
    case UErased => true
    case _ => false
  }

  function DataOf(v: UVal): CVal
    requires IsData(v)
    decreases v
  {
    match v
    case UCon(k, xs) => CVCon(k, seq(|xs|, i requires 0 <= i < |xs| => DataOf(xs[i])))
    case UConst(c) => CVConst(c)
    case UErased => CVErased
  }

  lemma {:induction false} DataRel(c: Context, q: CProg, v: UVal, w: CVal)
    requires IsData(v) && Rel(c, q, v, w)
    ensures w == DataOf(v)
    decreases v
  {
    if v.UCon? {
      forall i | 0 <= i < |v.args| ensures w.args[i] == DataOf(v.args[i]) { DataRel(c, q, v.args[i], w.args[i]); }
      assert w.args == DataOf(v).args;
    }
  }

  /** What a function of the original program returns, the fixed program returns; data
      exactly. */
  lemma CallsPreserved(p: UProg, q: CProg, fuel: nat, n: Name, vs: seq<UVal>, ws: seq<CVal>)
    requires Fixes(p, q) && RelAll(ContextOf(p), q, vs, ws) && UCall(p, fuel, n, vs).Value?
    ensures exists f: nat ::
      && Call(q, f, n, ws).Value? && Rel(ContextOf(p), q, UCall(p, fuel, n, vs).v, Call(q, f, n, ws).v)
      && (IsData(UCall(p, fuel, n, vs).v) ==> Call(q, f, n, ws).v == DataOf(UCall(p, fuel, n, vs).v))
  {
    hide Rel, UCall, Call;
    var w, f := SimCall(p, q, fuel, n, vs, ws);
    if IsData(UCall(p, fuel, n, vs).v) { DataRel(ContextOf(p), q, UCall(p, fuel, n, vs).v, w); }
    assert Call(q, f, n, ws).Value?;
  }
}

/** Fixing arities preserves meaning: what a term comes to when names may be applied
    to any number of arguments, the fixed term comes to when they must be exact. */
module ArityCorrect {
  import opened Base
  import opened CExpSyntax
  import opened CExpEval
  import opened CExpFuel
  import opened RenamingCorrect
  import opened MergingCorrect
  import opened Arity
  import opened ArityMeaning
  import opened CurriedEval
  import CaseOfCaseCorrect

  function Max(a: nat, b: nat): nat { if a > b then a else b }

  // ----- Values -----

  /** `g`, given one more argument, calls `n` on it after `ws`. */
  ghost predicate LacksOne(q: CProg, n: Name, ws: seq<CVal>, g: CVal) {
    forall z, fuel: nat :: Same(z, z) && Call(q, fuel, n, ws + [z]).Value? ==> Answers(q, g, z, Call(q, fuel, n, ws + [z]).v)
  }

  /** `g` applied to `z` comes to `y`. */
  ghost predicate Answers(q: CProg, g: CVal, z: CVal, y: CVal) {
    exists fuel: nat :: Apply(q, fuel, g, z).Value? && Same(y, Apply(q, fuel, g, z).v)
  }

  /** `g`, given `m` more arguments, calls `n` on them after `ws`. */
  ghost predicate Lacks(q: CProg, n: Name, ws: seq<CVal>, m: nat, g: CVal)
    decreases m
  {
    g.CVClo? && m > 0 &&
    if m == 1 then LacksOne(q, n, ws, g)
    else
      forall z :: Same(z, z) ==> Apply(q, 1, g, z).Value? && Lacks(q, n, ws + [z], m - 1, Apply(q, 1, g, z).v)
  }

  /** A value of the original program and one of the fixed program `q`. */
  ghost predicate Rel(c: Context, q: CProg, v: UVal, w: CVal)
    decreases v
  {
    match v
    case UCon(k, xs) =>
      w.CVCon? && w.key == k && |w.args| == |xs| && forall i :: 0 <= i < |xs| ==> Rel(c, q, xs[i], w.args[i])
    case UConst(k) => w == CVConst(k)
    case UErased => w == CVErased
    case UClo(env, b) =>
      Scoped(b, 1 + |env|) && Fixable(c, b) && exists env0: seq<CVal> ::
        |env0| == |env| && GoodEnv(env0) && (forall i :: 0 <= i < |env| ==> Rel(c, q, env[i], env0[i])) &&
        Same(CVClo(env0, FixArityTm(c, b, [])), w)
    case UThunk(env, b) =>
      Scoped(b, |env|) && Fixable(c, b) && exists env0: seq<CVal> ::
        |env0| == |env| && GoodEnv(env0) && (forall i :: 0 <= i < |env| ==> Rel(c, q, env[i], env0[i])) &&
        Same(CVThunk(env0, FixArityTm(c, b, [])), w)
    case UPap(n, xs) =>
      n in c && |xs| < ArityOf(c, n) && exists ws: seq<CVal> ::
        |ws| == |xs| && GoodEnv(ws) && (forall i :: 0 <= i < |xs| ==> Rel(c, q, xs[i], ws[i])) &&
        Lacks(q, n, ws, ArityOf(c, n) - |xs|, w)
  }

  ghost predicate RelAll(c: Context, q: CProg, vs: seq<UVal>, ws: seq<CVal>) {
    |vs| == |ws| && GoodEnv(ws) && forall i :: 0 <= i < |vs| ==> Rel(c, q, vs[i], ws[i])
  }

  function ContextOf(p: UProg): Context { map n | n in p.defs :: Some(p.defs[n]) }

  /** Every definition with its arities fixed. */
  ghost predicate Fixes(p: UProg, q: CProg) {
    && Proper(q)
    && (forall n :: n in p.defs <==> n in q.defs)
    && (forall n :: n in p.defs ==> q.defs[n] == FixArity(ContextOf(p), p.defs[n]))
    && (forall n :: n in p.defs ==> DefOk(ContextOf(p), p.defs[n]))
    && (forall k, vs, ws :: RelAll(ContextOf(p), q, vs, ws) && p.prim(k, vs).Value? ==>
          q.prim(k, ws).Value? && Rel(ContextOf(p), q, p.prim(k, vs).v, q.prim(k, ws).v))
  }

  predicate DefOk(c: Context, d: CDef) {
    match d
    case MkFun(args, b) => Scoped(b, |args|) && Fixable(c, b)
    case MkError(b) => Scoped(b, 0) && Fixable(c, b)
    case _ => true
  }

  // ----- The relation does not see how closures are laid out -----

  lemma {:induction false} LacksSame(q: CProg, n: Name, ws: seq<CVal>, ws': seq<CVal>, m: nat, g: CVal, g': CVal)
    requires Proper(q) && Lacks(q, n, ws, m, g) && SameAll(ws', ws) && Same(g, g')
    ensures Lacks(q, n, ws', m, g')
    decreases m
  {
    hide Same, Eval, Call, Apply, Proper, LacksOne, SameAll;
    SameShape(g, g');
    if m == 1 {
      LacksOneSame(q, n, ws, ws', g, g');
    } else {
      forall z | Same(z, z) ensures Apply(q, 1, g', z).Value? && Lacks(q, n, ws' + [z], m - 1, Apply(q, 1, g', z).v) {
        ApplySame(q, 1, g, g', z, z);
        OneSame(z);
        SameAllAppend(ws', ws, [z], [z]);
        LacksSame(q, n, ws + [z], ws' + [z], m - 1, Apply(q, 1, g, z).v, Apply(q, 1, g', z).v);
      }
    }
  }

  lemma OneSame(z: CVal)
    requires Same(z, z)
    ensures SameAll([z], [z])
  {
    hide Same;
  }

  lemma LacksOneSame(q: CProg, n: Name, ws: seq<CVal>, ws': seq<CVal>, g: CVal, g': CVal)
    requires Proper(q) && LacksOne(q, n, ws, g) && SameAll(ws', ws) && Same(g, g')
    ensures LacksOne(q, n, ws', g')
  {
    hide Same, Eval, Call, Apply, Proper, SameAll;
    forall z, fuel: nat | Same(z, z) && Call(q, fuel, n, ws' + [z]).Value?
      ensures Answers(q, g', z, Call(q, fuel, n, ws' + [z]).v)
    {
      OneSame(z);
      SameAllAppend(ws', ws, [z], [z]);
      CallSame(q, fuel, n, ws' + [z], ws + [z]);
      var y, y0 := Call(q, fuel, n, ws' + [z]).v, Call(q, fuel, n, ws + [z]).v;
      assert Answers(q, g, z, y0);
      var fuel': nat :| Apply(q, fuel', g, z).Value? && Same(y0, Apply(q, fuel', g, z).v);
      ApplySame(q, fuel', g, g', z, z);
      SameTrans(y, y0, Apply(q, fuel', g, z).v);
      SameTrans(y, Apply(q, fuel', g, z).v, Apply(q, fuel', g', z).v);
    }
  }

  // What a related closure, thunk or partial application is made of.

  lemma CloParts(c: Context, q: CProg, v: UVal, w: CVal) returns (env0: seq<CVal>)
    requires v.UClo? && Rel(c, q, v, w)
    ensures RelAll(c, q, v.env, env0) && Same(CVClo(env0, FixArityTm(c, v.body, [])), w)
    ensures Scoped(v.body, 1 + |v.env|) && Fixable(c, v.body)
  {
    env0 :| |env0| == |v.env| && GoodEnv(env0) && (forall i :: 0 <= i < |v.env| ==> Rel(c, q, v.env[i], env0[i])) &&
      Same(CVClo(env0, FixArityTm(c, v.body, [])), w);
  }

  lemma CloRel(c: Context, q: CProg, env: seq<UVal>, b: CExp, env0: seq<CVal>, w: CVal)
    requires RelAll(c, q, env, env0) && Same(CVClo(env0, FixArityTm(c, b, [])), w)
    requires Scoped(b, 1 + |env|) && Fixable(c, b)
    ensures Rel(c, q, UClo(env, b), w)
  {
    hide Same, FixArityTm, Fixable, Scoped, Lacks;
  }

  lemma ThunkParts(c: Context, q: CProg, v: UVal, w: CVal) returns (env0: seq<CVal>)
    requires v.UThunk? && Rel(c, q, v, w)
    ensures RelAll(c, q, v.env, env0) && Same(CVThunk(env0, FixArityTm(c, v.body, [])), w)
    ensures Scoped(v.body, |v.env|) && Fixable(c, v.body)
  {
    env0 :| |env0| == |v.env| && GoodEnv(env0) && (forall i :: 0 <= i < |v.env| ==> Rel(c, q, v.env[i], env0[i])) &&
      Same(CVThunk(env0, FixArityTm(c, v.body, [])), w);
  }

  lemma ThunkRel(c: Context, q: CProg, env: seq<UVal>, b: CExp, env0: seq<CVal>, w: CVal)
    requires RelAll(c, q, env, env0) && Same(CVThunk(env0, FixArityTm(c, b, [])), w)
    requires Scoped(b, |env|) && Fixable(c, b)
    ensures Rel(c, q, UThunk(env, b), w)
  {
    hide Same, FixArityTm, Fixable, Scoped, Lacks;
  }

  lemma PapParts(c: Context, q: CProg, v: UVal, w: CVal) returns (ws: seq<CVal>)
    requires v.UPap? && Rel(c, q, v, w)
    ensures v.n in c && |v.args| < ArityOf(c, v.n) && RelAll(c, q, v.args, ws)
    ensures Lacks(q, v.n, ws, ArityOf(c, v.n) - |v.args|, w)
  {
    ws :| |ws| == |v.args| && GoodEnv(ws) && (forall i :: 0 <= i < |v.args| ==> Rel(c, q, v.args[i], ws[i])) &&
      Lacks(q, v.n, ws, ArityOf(c, v.n) - |v.args|, w);
  }

  lemma PapRel(c: Context, q: CProg, n: Name, xs: seq<UVal>, ws: seq<CVal>, w: CVal)
    requires n in c && |xs| < ArityOf(c, n) && RelAll(c, q, xs, ws) && Lacks(q, n, ws, ArityOf(c, n) - |xs|, w)
    ensures Rel(c, q, UPap(n, xs), w)
  {
    hide Same, FixArityTm, Fixable, Scoped, Lacks;
  }

  lemma {:induction false} RelSame(c: Context, q: CProg, v: UVal, w: CVal, w': CVal)
    requires Proper(q) && Rel(c, q, v, w) && Same(w, w')
    ensures Rel(c, q, v, w')
    decreases v
  {
    if v.UCon? {
      forall i | 0 <= i < |v.args| ensures Rel(c, q, v.args[i], w'.args[i]) { RelSame(c, q, v.args[i], w.args[i], w'.args[i]); }
    } else if v.UConst? || v.UErased? {
    } else {
      RelSameLazy(c, q, v, w, w');
    }
  }

  lemma RelSameLazy(c: Context, q: CProg, v: UVal, w: CVal, w': CVal)
    requires Proper(q) && Rel(c, q, v, w) && Same(w, w') && (v.UClo? || v.UThunk? || v.UPap?)
    ensures Rel(c, q, v, w')
  {
    hide Rel, Same, Lacks, RelAll, FixArityTm, Proper;
    if v.UClo? {
      var env0 := CloParts(c, q, v, w);
      SameTrans(CVClo(env0, FixArityTm(c, v.body, [])), w, w');
      CloRel(c, q, v.env, v.body, env0, w');
    } else if v.UThunk? {
      var env0 := ThunkParts(c, q, v, w);
      SameTrans(CVThunk(env0, FixArityTm(c, v.body, [])), w, w');
      ThunkRel(c, q, v.env, v.body, env0, w');
    } else {
      var ws := PapParts(c, q, v, w);
      GoodAll(c, q, v.args, ws);
      LacksSame(q, v.n, ws, ws, ArityOf(c, v.n) - |v.args|, w, w');
      PapRel(c, q, v.n, v.args, ws, w');
    }
  }

  lemma GoodAll(c: Context, q: CProg, vs: seq<UVal>, ws: seq<CVal>)
    requires RelAll(c, q, vs, ws)
    ensures SameAll(ws, ws) && |vs| == |ws|
  {
  }

  // ----- Scopes -----

  lemma {:induction false} UnloadScoped(args: seq<CExp>, e: CExp, n: nat)
    requires Scoped(e, n) && AllScoped(args, n)
    ensures Scoped(Unload(args, e), n)
    decreases args
  {
    if args != [] { UnloadScoped(args[1..], CApp(e, [args[0]]), n); }
  }

  lemma {:induction false} EtaScoped(i: int, k: nat, e: CExp, vs: seq<nat>, n: nat)
    requires Scoped(e, n) && !e.COp? && forall j :: 0 <= j < |vs| ==> vs[j] < n
    ensures Scoped(EtaExpand(i, k, e, vs), n)
    decreases k
  {
    if k == 0 {
      hide Reverse;
      LocalsScoped(Reverse(vs), n);
    } else {
      CaseOfCaseCorrect.WeakenScoped(1, n, e);
      assert !Weaken(1, e).COp?;
      EtaScoped(i + 1, k - 1, Weaken(1, e), [0] + Later(vs), n + 1);
    }
  }

  lemma {:induction false} ExpandScoped(k: nat, f: CExp, args: seq<CExp>, n: nat)
    requires Scoped(f, n) && AllScoped(args, n) && (f.COp? ==> k == 0)
    ensures Scoped(ExpandToArity(k, f, args), n)
    decreases k
  {
    if f.CErased? {
    } else if k == 0 {
      UnloadScoped(args, f, n);
    } else if args != [] {
      ExpandScoped(k - 1, AddArg(f, args[0]), args[1..], n);
    } else {
      EtaScoped(0, k, f, [], n);
    }
  }

  lemma {:induction false} FixScoped(c: Context, e: CExp, args: seq<CExp>, n: nat)
    requires Scoped(e, n) && AllScoped(args, n)
    ensures Scoped(FixArityTm(c, e, args), n)
    decreases e, 1
  {
    if e.CApp? {
      FixAllScoped(c, e.args, n);
      if e.f.CRef? && e.f.n !in c { UnloadScoped(args, e, n); } else {
        FixScoped(c, e.f, seq(|e.args|, i requires 0 <= i < |e.args| => FixArityTm(c, e.args[i], [])) + args, n);
      }
    } else if e.CRef? {
      if e.n in c { ExpandScoped(ArityOf(c, e.n), CApp(e, []), args, n); } else { UnloadScoped(args, e, n); }
    } else {
      HeadScoped(c, e, n);
      FixIsHead(c, e, args);
      if args == [] || !(e.CCon? || e.COp? || e.CExtPrim?) { ExpandScoped(0, Head(c, e), args, n); } else { ExpandScoped(0, e, args, n); }
    }
  }

  lemma {:induction false} FixAllScoped(c: Context, es: seq<CExp>, n: nat)
    requires AllScoped(es, n)
    ensures forall i :: 0 <= i < |es| ==> Scoped(FixArityTm(c, es[i], []), n)
    decreases es, 0
  {
    forall i | 0 <= i < |es| ensures Scoped(FixArityTm(c, es[i], []), n) { FixScoped(c, es[i], [], n); }
  }

  function FixAll(c: Context, es: seq<CExp>): (r: seq<CExp>)
    ensures |r| == |es|
  {
    seq(|es|, i requires 0 <= i < |es| => FixArityTm(c, es[i], []))
  }

  /** A term that is neither a name nor an application, with its parts fixed. */
  function Head(c: Context, e: CExp): CExp {
    match e
    case CLam(x, b) => CLam(x, FixArityTm(c, b, []))
    case CLet(x, inl, v, s) => CLet(x, inl, FixArityTm(c, v, []), FixArityTm(c, s, []))
    case CCon(n, t, xs) => CCon(n, t, FixAll(c, xs))
    case COp(op, arity, xs) => COp(op, arity, FixAll(c, xs))
    case CExtPrim(p, xs) => CExtPrim(p, FixAll(c, xs))
    case CForce(r, t) => CForce(r, FixArityTm(c, t, []))
    case CDelay(r, t) => CDelay(r, FixArityTm(c, t, []))
    case CConCase(s, alts, d) =>
      CConCase(FixArityTm(c, s, []),
               seq(|alts|, i requires 0 <= i < |alts| => alts[i].(body := FixArityTm(c, alts[i].body, []))),
               if d.Some? then Some(FixArityTm(c, d.value, [])) else None)
    case CConstCase(s, alts, d) =>
      CConstCase(FixArityTm(c, s, []),
                 seq(|alts|, i requires 0 <= i < |alts| => alts[i].(body := FixArityTm(c, alts[i].body, []))),
                 if d.Some? then Some(FixArityTm(c, d.value, [])) else None)
    case _ => e
  }

  lemma FixIsHead(c: Context, e: CExp, args: seq<CExp>)
    requires !e.CApp? && !e.CRef?
    ensures FixArityTm(c, e, args) ==
      if args == [] then Head(c, e)
      else if e.CCon? || e.COp? || e.CExtPrim? then ExpandToArity(0, e, args)
      else ExpandToArity(0, Head(c, e), args)
  {
  }

  lemma {:induction false} HeadScoped(c: Context, e: CExp, n: nat)
    requires Scoped(e, n) && !e.CApp? && !e.CRef?
    ensures Scoped(Head(c, e), n)
    decreases e, 0
  {
    match e
    case CLam(_, b) => FixScoped(c, b, [], n + 1);
    case CLet(_, _, v, s) =>
      FixScoped(c, v, [], n);
      FixScoped(c, s, [], n + 1);
    case CCon(_, _, xs) => FixAllScoped(c, xs, n);
    case COp(_, _, xs) => FixAllScoped(c, xs, n);
    case CExtPrim(_, xs) => FixAllScoped(c, xs, n);
    case CForce(_, t) => FixScoped(c, t, [], n);
    case CDelay(_, t) => FixScoped(c, t, [], n);
    case CConCase(s, alts, d) =>
      FixScoped(c, s, [], n);
      if d.Some? { FixScoped(c, d.value, [], n); }
      forall i | 0 <= i < |alts| ensures Scoped(Head(c, e).conAlts[i].body, |alts[i].args| + n) {
        assert (alts decreases to alts[i]);
        FixScoped(c, alts[i].body, [], |alts[i].args| + n);
      }
    case CConstCase(s, alts, d) =>
      FixScoped(c, s, [], n);
      if d.Some? { FixScoped(c, d.value, [], n); }
      forall i | 0 <= i < |alts| ensures Scoped(Head(c, e).constAlts[i].body, n) {
        assert (alts decreases to alts[i]);
        FixScoped(c, alts[i].body, [], n);
      }
    case _ =>
  }

  // ----- Eta-expanded applications lack arguments -----

  lemma LamApplies(q: CProg, fuel: nat, env: seq<CVal>, e: CExp, z: CVal)
    requires e.CLam? && fuel > 0
    ensures EvalThenApply(q, fuel, env, e, [z]) == Apply(q, fuel, CVClo(env, e.body), z)
  {
    var a := Apply(q, fuel, CVClo(env, e.body), z);
    assert [z][1..] == [];
    if a.Value? { assert ApplyEach(q, fuel, a.v, [z][1..]) == Value(a.v); }
  }

  lemma EtaAnswers(q: CProg, env: seq<CVal>, n: Name, i: int, xs: seq<CExp>, vs: seq<nat>, fuel: nat, us: seq<CVal>,
                   z: CVal, f: nat)
    requires Proper(q) && GoodEnv(env) && AllScoped(xs, |env|) && (forall j :: 0 <= j < |vs| ==> vs[j] < |env|)
    requires EvalList(q, fuel, env, xs) == Value(us) && Same(z, z)
    requires Call(q, f, n, us + Pick(env, Reverse(vs)) + [z]).Value?
    ensures EtaExpand(i, 1, CApp(CRef(n), xs), vs).CLam?
    ensures Answers(q, CVClo(env, EtaExpand(i, 1, CApp(CRef(n), xs), vs).body), z, Call(q, f, n, us + Pick(env, Reverse(vs)) + [z]).v)
  {
    var k, picked := Max(fuel, f), Pick(env, Reverse(vs));
    var e := EtaExpand(i, 1, CApp(CRef(n), xs), vs);
    OneSame(z);
    ListAgree(q, fuel, k, env, xs);
    CallAgree(q, f, k, n, us + picked + [z]);
    assert us + picked + [z] == us + (picked + [z]);
    assert CallWith(q, k, env, n, xs, picked + [z]) == Call(q, f, n, us + picked + [z]);
    hide Eval, EvalList, Call, Apply, Same, Proper, Reverse, CallWith;
    EtaMeaning(q, k + 1, env, n, i, 1, xs, vs, [z]);
    LamApplies(q, k + 1, env, e, z);
  }

  /** The weakened arguments come to the same values under one more variable. */
  lemma WeakenedList(q: CProg, fuel: nat, env: seq<CVal>, z: CVal, n: Name, xs: seq<CExp>)
    requires Proper(q) && GoodEnv(env) && AllScoped(xs, |env|) && EvalList(q, fuel, env, xs).Value?
    ensures
      var e := Weaken(1, CApp(CRef(n), xs));
      && e.CApp? && e.f == CRef(n) && AllScoped(e.args, 1 + |env|) && EvalList(q, fuel, [z] + env, e.args).Value?
      && SameAll(EvalList(q, fuel, env, xs).v, EvalList(q, fuel, [z] + env, e.args).v)
  {
    WeakenedShape(env, n, xs);
    WeakenedEnv(env, z);
    hide Eval, EvalList, Same, Proper, Weaken, Insertion, SameEnv;
    RenList(q, fuel, Insertion(0, 1, |env|), env, [z] + env, xs);
  }

  lemma GoodPick(env: seq<CVal>, vs: seq<nat>)
    requires GoodEnv(env) && forall j :: 0 <= j < |vs| ==> vs[j] < |env|
    ensures GoodEnv(Pick(env, vs))
  {
    hide Same;
  }

  lemma {:induction false} EtaLacks(q: CProg, env: seq<CVal>, n: Name, i: int, m: nat, xs: seq<CExp>, vs: seq<nat>,
                                    fuel: nat, us: seq<CVal>)
    requires Proper(q) && GoodEnv(env) && AllScoped(xs, |env|) && (forall j :: 0 <= j < |vs| ==> vs[j] < |env|)
    requires m > 0 && EvalList(q, fuel, env, xs) == Value(us)
    ensures
      var e := EtaExpand(i, m, CApp(CRef(n), xs), vs);
      e.CLam? && Lacks(q, n, us + Pick(env, Reverse(vs)), m, CVClo(env, e.body))
    decreases m
  {
    var e := EtaExpand(i, m, CApp(CRef(n), xs), vs);
    var g, ws := CVClo(env, e.body), us + Pick(env, Reverse(vs));
    if m == 1 {
      hide Same, Call, Apply, Eval, Answers, Proper, Reverse, Pick, EtaExpand;
      forall z, f: nat | Same(z, z) && Call(q, f, n, ws + [z]).Value? ensures Answers(q, g, z, Call(q, f, n, ws + [z]).v) {
        EtaAnswers(q, env, n, i, xs, vs, fuel, us, z, f);
      }
    } else {
      hide Same, Proper, Reverse, Pick, Lacks;
      forall z | Same(z, z) ensures Apply(q, 1, g, z).Value? && Lacks(q, n, ws + [z], m - 1, Apply(q, 1, g, z).v) {
        EtaLacksNext(q, env, n, i, m, xs, vs, fuel, us, z);
      }
      LacksMany(q, n, ws, m, g);
    }
  }

  lemma LacksMany(q: CProg, n: Name, ws: seq<CVal>, m: nat, g: CVal)
    requires m > 1 && g.CVClo?
    requires forall z :: Same(z, z) ==> Apply(q, 1, g, z).Value? && Lacks(q, n, ws + [z], m - 1, Apply(q, 1, g, z).v)
    ensures Lacks(q, n, ws, m, g)
  {
  }

  lemma {:induction false} EtaLacksNext(q: CProg, env: seq<CVal>, n: Name, i: int, m: nat, xs: seq<CExp>, vs: seq<nat>,
                                        fuel: nat, us: seq<CVal>, z: CVal)
    requires Proper(q) && GoodEnv(env) && AllScoped(xs, |env|) && (forall j :: 0 <= j < |vs| ==> vs[j] < |env|)
    requires m > 1 && EvalList(q, fuel, env, xs) == Value(us) && Same(z, z)
    ensures
      var g := CVClo(env, EtaExpand(i, m, CApp(CRef(n), xs), vs).body);
      Apply(q, 1, g, z).Value? && Lacks(q, n, us + Pick(env, Reverse(vs)) + [z], m - 1, Apply(q, 1, g, z).v)
    decreases m, 0
  {
    hide *;
    var e0 := Weaken(1, CApp(CRef(n), xs));
    var env', vs' := [z] + env, [0] + Later(vs);
    var b := EtaExpand(i + 1, m - 1, e0, vs');
    EtaStep(q, env, n, i, m, xs, vs, z);
    WeakenedList(q, fuel, env, z, n, xs);
    var us' := EvalList(q, fuel, env', e0.args).v;
    OneSame(z);
    GoodCons(z, env);
    assert e0 == CApp(CRef(n), e0.args);
    PickNext(env, vs, z, env', vs');
    EtaLacks(q, env', n, i + 1, m - 1, e0.args, vs', fuel, us');
    assert EtaExpand(i + 1, m - 1, CApp(CRef(n), e0.args), vs') == b;
    var picked := Pick(env, Reverse(vs));
    assert Pick(env', Reverse(vs')) == picked + [z];
    assert Lacks(q, n, us' + Pick(env', Reverse(vs')), m - 1, CVClo(env', b.body));
    assert us' + Pick(env', Reverse(vs')) == us' + (picked + [z]);
    GoodPick(env, Reverse(vs));
    GoodIsSame(picked);
    SameAllAppend(picked, picked, [z], [z]);
    SameAllAppend(us, us', picked + [z], picked + [z]);
    assert us + picked + [z] == us + (picked + [z]);
    AppScoped(n, e0.args, |env'|);
    EtaScoped(i + 1, m - 1, e0, vs', |env'|);
    CloGood(q, env', b);
    LacksSame(q, n, us' + (picked + [z]), us + (picked + [z]), m - 1, CVClo(env', b.body), CVClo(env', b.body));
  }

  lemma EtaStep(q: CProg, env: seq<CVal>, n: Name, i: int, m: nat, xs: seq<CExp>, vs: seq<nat>, z: CVal)
    requires m > 1
    ensures
      var b := EtaExpand(i + 1, m - 1, Weaken(1, CApp(CRef(n), xs)), [0] + Later(vs));
      && b.CLam? && EtaExpand(i, m, CApp(CRef(n), xs), vs).CLam? && EtaExpand(i, m, CApp(CRef(n), xs), vs).body == b
      && Apply(q, 1, CVClo(env, b), z) == Value(CVClo([z] + env, b.body))
  {
  }

  lemma PickNext(env: seq<CVal>, vs: seq<nat>, z: CVal, env': seq<CVal>, vs': seq<nat>)
    requires (forall j :: 0 <= j < |vs| ==> vs[j] < |env|) && env' == [z] + env && vs' == [0] + Later(vs)
    ensures forall j :: 0 <= j < |vs'| ==> vs'[j] < |env'|
    ensures Pick(env', Reverse(vs')) == Pick(env, Reverse(vs)) + [z]
  {
    hide Reverse;
    PickLater(env, vs, [z]);
    assert [z][1..] == [] && Pick(env', Reverse(vs')) + [] == Pick(env', Reverse(vs'));
  }

  lemma GoodIsSame(ws: seq<CVal>)
    requires GoodEnv(ws)
    ensures SameAll(ws, ws)
  {
  }

  lemma AppScoped(n: Name, xs: seq<CExp>, k: nat)
    requires AllScoped(xs, k)
    ensures Scoped(CApp(CRef(n), xs), k)
  {
  }

  lemma GoodCons(z: CVal, env: seq<CVal>)
    requires Same(z, z) && GoodEnv(env)
    ensures GoodEnv([z] + env)
  {
    hide Same;
  }

  lemma CloGood(q: CProg, env: seq<CVal>, b: CExp)
    requires GoodEnv(env) && Scoped(b, |env|) && b.CLam?
    ensures Same(CVClo(env, b.body), CVClo(env, b.body))
  {
    RenIdentity(b, |env|);
    assert SameEnv(Identity(|env|), env, env);
    CloSame(Identity(|env|), env, env, b.body);
    UpIdentity(1, |env|);
    RenIdentity(b.body, 1 + |env|);
  }
}

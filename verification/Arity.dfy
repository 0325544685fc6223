/** Making every application of a global name exact (Compiler/Inline.idr and
    `expandToArity` of Compiler/CompileExpr.idr). */
module Arity {
  import opened Base
  import opened CExpSyntax

  function GetArity(d: CDef): nat {
    match d
    case MkFun(args, _) => |args|
    case MkCon(_, arity) => arity
    case MkForeign(arity) => arity
    case MkError(_) => 0
  }

  /** The names that are known, with their compiled definitions if there are any. */
  type Context = map<Name, Option<CDef>>

  function ArityOf(c: Context, n: Name): nat
    requires n in c
  {
    if c[n].Some? then GetArity(c[n].value) else 0
  }

  function Unload(args: seq<CExp>, e: CExp): CExp
    decreases args
  {
    if args == [] then e else Unload(args[1..], CApp(e, [args[0]]))
  }

  function Locals(vs: seq<nat>): (es: seq<CExp>)
    ensures |es| == |vs|
  {
    seq(|vs|, i requires 0 <= i < |vs| => CLocal(vs[i]))
  }

  function MkApp(e: CExp, args: seq<CExp>): CExp {
    if args == [] then e
    else match e
      case CApp(f, xs) => CApp(f, xs + args)
      case CCon(n, t, xs) => CCon(n, t, xs + args)
      case CExtPrim(p, xs) => CExtPrim(p, xs + args)
      case _ => CApp(e, args)
  }

  function Later(vs: seq<nat>): (js: seq<nat>)
    ensures |js| == |vs|
  {
    seq(|vs|, i requires 0 <= i < |vs| => vs[i] + 1)
  }

  function EtaExpand(i: int, k: nat, e: CExp, args: seq<nat>): CExp
    decreases k
  {
    if k == 0 then MkApp(e, Locals(Reverse(args)))
    else CLam(MN("eta", i), EtaExpand(i + 1, k - 1, Weaken(1, e), [0] + Later(args)))
  }

  function AddArg(f: CExp, a: CExp): CExp {
    match f
    case CApp(g, args) => CApp(g, args + [a])
    case CCon(n, t, args) => CCon(n, t, args + [a])
    case CExtPrim(p, args) => CExtPrim(p, args + [a])
    case _ => CApp(f, [a])
  }

  function ExpandToArity(k: nat, f: CExp, args: seq<CExp>): CExp
    decreases k
  {
    if f.CErased? then f
    else if k == 0 then Unload(args, f)
    else if args != [] then ExpandToArity(k - 1, AddArg(f, args[0]), args[1..])
    else EtaExpand(0, k, f, [])
  }

  function FixArityTm(c: Context, e: CExp, args: seq<CExp>): CExp
    decreases e
  {
    match e
    case CRef(n) => if n in c then ExpandToArity(ArityOf(c, n), CApp(e, []), args) else Unload(args, e)
    case CLam(x, b) => ExpandToArity(0, CLam(x, FixArityTm(c, b, [])), args)
    case CLet(x, inl, v, s) => ExpandToArity(0, CLet(x, inl, FixArityTm(c, v, []), FixArityTm(c, s, [])), args)
    case CApp(f, fargs) =>
      if f.CRef? && f.n !in c then Unload(args, e)
      else
        FixArityTm(c, f, seq(|fargs|, i requires 0 <= i < |fargs| => FixArityTm(c, fargs[i], [])) + args)
    case CCon(n, t, xs) =>
      if args == []
      then CCon(n, t, seq(|xs|, i requires 0 <= i < |xs| => FixArityTm(c, xs[i], [])))
      else ExpandToArity(0, e, args)
    case COp(op, arity, xs) =>
      if args == []
      then COp(op, arity, seq(|xs|, i requires 0 <= i < |xs| => FixArityTm(c, xs[i], [])))
      else ExpandToArity(0, e, args)
    case CExtPrim(p, xs) =>
      if args == []
      then CExtPrim(p, seq(|xs|, i requires 0 <= i < |xs| => FixArityTm(c, xs[i], [])))
      else ExpandToArity(0, e, args)
    case CForce(r, t) => ExpandToArity(0, CForce(r, FixArityTm(c, t, [])), args)
    case CDelay(r, t) => ExpandToArity(0, CDelay(r, FixArityTm(c, t, [])), args)
    case CConCase(s, alts, d) =>
      ExpandToArity(0,
        CConCase(FixArityTm(c, s, []),
                 seq(|alts|, i requires 0 <= i < |alts| => alts[i].(body := FixArityTm(c, alts[i].body, []))),
                 if d.Some? then Some(FixArityTm(c, d.value, [])) else None), args)
    case CConstCase(s, alts, d) =>
      ExpandToArity(0,
        CConstCase(FixArityTm(c, s, []),
                   seq(|alts|, i requires 0 <= i < |alts| => alts[i].(body := FixArityTm(c, alts[i].body, []))),
                   if d.Some? then Some(FixArityTm(c, d.value, [])) else None), args)
    case _ => ExpandToArity(0, e, args)
  }

  function FixArity(c: Context, d: CDef): CDef {
    match d
    case MkFun(args, e) => MkFun(args, FixArityTm(c, e, []))
    case MkError(e) => MkError(FixArityTm(c, e, []))
    case _ => d
  }

  // ----- What is established, and on which terms -----

  /** Every global name is applied to exactly its arity. */
  predicate Saturated(c: Context, e: CExp)
    decreases e
  {
    match e
    case CLocal(_) => true
    case CRef(_) => false
    case CLam(_, b) => Saturated(c, b)
    case CLet(_, _, v, s) => Saturated(c, v) && Saturated(c, s)
    case CApp(f, args) =>
      (if f.CRef? then f.n in c && |args| == ArityOf(c, f.n) else Saturated(c, f)) &&
      forall i :: 0 <= i < |args| ==> Saturated(c, args[i])
    case CCon(_, _, args) => forall i :: 0 <= i < |args| ==> Saturated(c, args[i])
    case COp(_, _, args) => forall i :: 0 <= i < |args| ==> Saturated(c, args[i])
    case CExtPrim(_, args) => forall i :: 0 <= i < |args| ==> Saturated(c, args[i])
    case CForce(_, t) => Saturated(c, t)
    case CDelay(_, t) => Saturated(c, t)
    case CConCase(s, alts, d) =>
      Saturated(c, s) && (forall i :: 0 <= i < |alts| ==> Saturated(c, alts[i].body)) &&
      (d.Some? ==> Saturated(c, d.value))
    case CConstCase(s, alts, d) =>
      Saturated(c, s) && (forall i :: 0 <= i < |alts| ==> Saturated(c, alts[i].body)) &&
      (d.Some? ==> Saturated(c, d.value))
    case CPrimVal(_) => true
    case CErased => true
    case CCrash(_) => true
  }

  /** Every global name is known, and no constructor, operator or external primitive
      is itself applied. */
  predicate Fixable(c: Context, e: CExp)
    decreases e
  {
    match e
    case CLocal(_) => true
    case CRef(n) => n in c
    case CLam(_, b) => Fixable(c, b)
    case CLet(_, _, v, s) => Fixable(c, v) && Fixable(c, s)
    case CApp(f, args) =>
      !f.CCon? && !f.COp? && !f.CExtPrim? && Fixable(c, f) && forall i :: 0 <= i < |args| ==> Fixable(c, args[i])
    case CCon(_, _, args) => forall i :: 0 <= i < |args| ==> Fixable(c, args[i])
    case COp(_, _, args) => forall i :: 0 <= i < |args| ==> Fixable(c, args[i])
    case CExtPrim(_, args) => forall i :: 0 <= i < |args| ==> Fixable(c, args[i])
    case CForce(_, t) => Fixable(c, t)
    case CDelay(_, t) => Fixable(c, t)
    case CConCase(s, alts, d) =>
      Fixable(c, s) && (forall i :: 0 <= i < |alts| ==> Fixable(c, alts[i].body)) &&
      (d.Some? ==> Fixable(c, d.value))
    case CConstCase(s, alts, d) =>
      Fixable(c, s) && (forall i :: 0 <= i < |alts| ==> Fixable(c, alts[i].body)) &&
      (d.Some? ==> Fixable(c, d.value))
    case CPrimVal(_) => true
    case CErased => true
    case CCrash(_) => true
  }

  /** The head, under nested applications, is erased, and with it all arguments. */
  predicate Drops(e: CExp) { e.CErased? || (e.CApp? && Drops(e.f)) }

  /** The terms whose names can be made exact, where `applied` says that arguments
      follow: names must be known, and what a constructor, operator or external
      primitive holds must be exact already if it is applied. */
  predicate Settles(c: Context, e: CExp, applied: bool)
    decreases e
  {
    match e
    case CLocal(_) => true
    case CRef(n) => n in c
    case CLam(_, b) => Settles(c, b, false)
    case CLet(_, _, v, s) => Settles(c, v, false) && Settles(c, s, false)
    case CApp(f, args) =>
      Settles(c, f, applied || args != []) && (Drops(f) || forall i :: 0 <= i < |args| ==> Settles(c, args[i], false))
    case CCon(_, _, args) => if applied then Saturated(c, e) else forall i :: 0 <= i < |args| ==> Settles(c, args[i], false)
    case COp(_, _, args) => if applied then Saturated(c, e) else forall i :: 0 <= i < |args| ==> Settles(c, args[i], false)
    case CExtPrim(_, args) => if applied then Saturated(c, e) else forall i :: 0 <= i < |args| ==> Settles(c, args[i], false)
    case CForce(_, t) => Settles(c, t, false)
    case CDelay(_, t) => Settles(c, t, false)
    case CConCase(s, alts, d) =>
      Settles(c, s, false) && (forall i :: 0 <= i < |alts| ==> Settles(c, alts[i].body, false)) &&
      (d.Some? ==> Settles(c, d.value, false))
    case CConstCase(s, alts, d) =>
      Settles(c, s, false) && (forall i :: 0 <= i < |alts| ==> Settles(c, alts[i].body, false)) &&
      (d.Some? ==> Settles(c, d.value, false))
    case CPrimVal(_) => true
    case CErased => true
    case CCrash(_) => true
  }
}

module AritySaturates {
  import opened Base
  import opened CExpSyntax
  import opened Arity

  predicate AllSaturated(c: Context, es: seq<CExp>) { forall i :: 0 <= i < |es| ==> Saturated(c, es[i]) }

  /** Changing variables neither makes nor breaks saturation. */
  lemma {:induction false} TraverseSaturated(c: Context, d: nat, lv: (nat, nat) -> CExp, rf: (nat, Name) -> CExp, e: CExp)
    requires (forall d: nat, i: nat :: lv(d, i).CLocal?) && Keeps(rf, {})
    ensures Saturated(c, Traverse(d, lv, rf, e)) <==> Saturated(c, e)
    decreases e, 1
  {
    match e
    case CLocal(_) => assert lv(d, e.i).CLocal?;
    case CRef(n) => assert rf(d, n) == CRef(n);
    case CLam(_, b) => TraverseSaturated(c, d + 1, lv, rf, b);
    case CLet(_, _, v, s) =>
      TraverseSaturated(c, d, lv, rf, v);
      TraverseSaturated(c, d + 1, lv, rf, s);
    case CApp(_, _) => TraverseAppSaturated(c, d, lv, rf, e);
    case CCon(_, _, args) => TraverseAllSaturated(c, d, lv, rf, args, Traverse(d, lv, rf, e).args);
    case COp(_, _, args) => TraverseAllSaturated(c, d, lv, rf, args, Traverse(d, lv, rf, e).args);
    case CExtPrim(_, args) => TraverseAllSaturated(c, d, lv, rf, args, Traverse(d, lv, rf, e).args);
    case CForce(_, t) => TraverseSaturated(c, d, lv, rf, t);
    case CDelay(_, t) => TraverseSaturated(c, d, lv, rf, t);
    case CConCase(_, _, _) => TraverseConSaturated(c, d, lv, rf, e);
    case CConstCase(_, _, _) => TraverseConstSaturated(c, d, lv, rf, e);
    case CPrimVal(_) =>
    case CErased =>
    case CCrash(_) =>
  }

  lemma {:induction false} TraverseAppSaturated(c: Context, d: nat, lv: (nat, nat) -> CExp, rf: (nat, Name) -> CExp, e: CExp)
    requires (forall d: nat, i: nat :: lv(d, i).CLocal?) && Keeps(rf, {}) && e.CApp?
    ensures Saturated(c, Traverse(d, lv, rf, e)) <==> Saturated(c, e)
    decreases e, 0
  {
    if e.f.CRef? { assert rf(d, e.f.n) == CRef(e.f.n); } else { TraverseSaturated(c, d, lv, rf, e.f); HeadKept(d, lv, rf, e.f); }
    TraverseAllSaturated(c, d, lv, rf, e.args, Traverse(d, lv, rf, e).args);
  }

  lemma {:induction false} TraverseAllSaturated(c: Context, d: nat, lv: (nat, nat) -> CExp, rf: (nat, Name) -> CExp,
                                                es: seq<CExp>, ts: seq<CExp>)
    requires (forall d: nat, i: nat :: lv(d, i).CLocal?) && Keeps(rf, {})
    requires |ts| == |es| && forall i :: 0 <= i < |es| ==> ts[i] == Traverse(d, lv, rf, es[i])
    ensures AllSaturated(c, ts) <==> AllSaturated(c, es)
    decreases es, 0
  {
    forall i | 0 <= i < |es| ensures Saturated(c, ts[i]) <==> Saturated(c, es[i]) {
      TraverseSaturated(c, d, lv, rf, es[i]);
    }
  }

  lemma {:induction false} TraverseConSaturated(c: Context, d: nat, lv: (nat, nat) -> CExp, rf: (nat, Name) -> CExp, e: CExp)
    requires (forall d: nat, i: nat :: lv(d, i).CLocal?) && Keeps(rf, {}) && e.CConCase?
    ensures Saturated(c, Traverse(d, lv, rf, e)) <==> Saturated(c, e)
    decreases e, 0
  {
    var alts, ts := e.conAlts, Traverse(d, lv, rf, e).conAlts;
    TraverseSaturated(c, d, lv, rf, e.scr);
    if e.def.Some? { TraverseSaturated(c, d, lv, rf, e.def.value); }
    forall i | 0 <= i < |alts| ensures Saturated(c, ts[i].body) <==> Saturated(c, alts[i].body) {
      assert (alts decreases to alts[i]);
      TraverseSaturated(c, |alts[i].args| + d, lv, rf, alts[i].body);
    }
  }

  lemma {:induction false} TraverseConstSaturated(c: Context, d: nat, lv: (nat, nat) -> CExp, rf: (nat, Name) -> CExp, e: CExp)
    requires (forall d: nat, i: nat :: lv(d, i).CLocal?) && Keeps(rf, {}) && e.CConstCase?
    ensures Saturated(c, Traverse(d, lv, rf, e)) <==> Saturated(c, e)
    decreases e, 0
  {
    var alts, ts := e.constAlts, Traverse(d, lv, rf, e).constAlts;
    TraverseSaturated(c, d, lv, rf, e.scr);
    if e.def.Some? { TraverseSaturated(c, d, lv, rf, e.def.value); }
    forall i | 0 <= i < |alts| ensures Saturated(c, ts[i].body) <==> Saturated(c, alts[i].body) {
      assert (alts decreases to alts[i]);
      TraverseSaturated(c, d, lv, rf, alts[i].body);
    }
  }

  lemma HeadKept(d: nat, lv: (nat, nat) -> CExp, rf: (nat, Name) -> CExp, f: CExp)
    requires !f.CRef? && forall d: nat, i: nat :: lv(d, i).CLocal?
    ensures !Traverse(d, lv, rf, f).CRef?
  {
    if f.CLocal? { assert lv(d, f.i).CLocal?; }
  }

  lemma WeakenSaturated(c: Context, k: nat, e: CExp)
    ensures Saturated(c, Weaken(k, e)) <==> Saturated(c, e)
  {
    var lv := (d: nat, i: nat) => CLocal(if i < d then i else i + k);
    TraverseSaturated(c, 0, lv, (d: nat, n) => CRef(n), e);
  }

  /** An application of `n` that lacks `k` more arguments. */
  predicate Lacking(c: Context, n: Name, k: nat, e: CExp) {
    e.CApp? && e.f == CRef(n) && n in c && |e.args| + k == ArityOf(c, n)
  }

  lemma WeakenLacking(c: Context, n: Name, k: nat, e: CExp)
    requires Lacking(c, n, k, e)
    ensures Lacking(c, n, k, Weaken(1, e)) && (AllSaturated(c, Weaken(1, e).args) <==> AllSaturated(c, e.args))
  {
    var ws := Weaken(1, e).args;
    assert Weaken(1, e).f == Weaken(1, CRef(n)) == CRef(n);
    forall i | 0 <= i < |e.args| ensures Saturated(c, ws[i]) <==> Saturated(c, e.args[i]) {
      assert ws[i] == Weaken(1, e.args[i]);
      WeakenSaturated(c, 1, e.args[i]);
    }
  }

  lemma AllSaturatedAppend(c: Context, xs: seq<CExp>, ys: seq<CExp>)
    ensures AllSaturated(c, xs + ys) <==> AllSaturated(c, xs) && AllSaturated(c, ys)
  {
    if AllSaturated(c, xs + ys) {
      assert forall i :: 0 <= i < |xs| ==> xs[i] == (xs + ys)[i];
      assert forall i :: 0 <= i < |ys| ==> ys[i] == (xs + ys)[|xs| + i];
    }
  }

  lemma {:induction false} EtaSaturated(c: Context, n: Name, i: int, k: nat, e: CExp, args: seq<nat>)
    requires Lacking(c, n, k + |args|, e)
    ensures Saturated(c, EtaExpand(i, k, e, args)) <==> AllSaturated(c, e.args)
    decreases k
  {
    if k > 0 {
      WeakenLacking(c, n, k + |args|, e);
      EtaSaturated(c, n, i + 1, k - 1, Weaken(1, e), [0] + Later(args));
    } else {
      AllSaturatedAppend(c, e.args, Locals(Reverse(args)));
    }
  }

  lemma {:induction false} UnloadSaturated(c: Context, args: seq<CExp>, e: CExp)
    requires !e.CRef?
    ensures Saturated(c, Unload(args, e)) <==> Saturated(c, e) && AllSaturated(c, args)
    decreases args
  {
    if args != [] {
      UnloadSaturated(c, args[1..], CApp(e, [args[0]]));
      AllSaturatedAppend(c, [args[0]], args[1..]);
      assert [args[0]] + args[1..] == args && [args[0]][0] == args[0];
    }
  }

  lemma UnloadUnknown(c: Context, args: seq<CExp>, n: Name)
    requires n !in c
    ensures !Saturated(c, Unload(args, CRef(n)))
  {
    if args != [] { UnloadSaturated(c, args[1..], CApp(CRef(n), [args[0]])); }
  }

  lemma {:induction false} ExpandSaturated(c: Context, n: Name, k: nat, f: CExp, args: seq<CExp>)
    requires Lacking(c, n, k, f)
    ensures Saturated(c, ExpandToArity(k, f, args)) <==> AllSaturated(c, f.args) && AllSaturated(c, args)
    decreases k
  {
    if k == 0 {
      UnloadSaturated(c, args, f);
    } else if args != [] {
      AllSaturatedAppend(c, f.args, [args[0]]);
      AllSaturatedAppend(c, [args[0]], args[1..]);
      assert [args[0]] + args[1..] == args;
      ExpandSaturated(c, n, k - 1, AddArg(f, args[0]), args[1..]);
    } else {
      EtaSaturated(c, n, 0, k, f, []);
    }
  }

  function FixAll(c: Context, es: seq<CExp>): (ts: seq<CExp>)
    ensures |ts| == |es|
  {
    seq(|es|, i requires 0 <= i < |es| => FixArityTm(c, es[i], []))
  }

  /** Fixing arities leaves every global name applied to exactly its arity, under all
      binders, if and only if the term settles and the arguments that it does not drop
      are exact. */
  lemma {:induction false} FixSaturatesIff(c: Context, e: CExp, args: seq<CExp>)
    ensures Saturated(c, FixArityTm(c, e, args)) <==> Settles(c, e, args != []) && (Drops(e) || AllSaturated(c, args))
    decreases e, 1
  {
    match e
    case CRef(n) => if n in c { ExpandSaturated(c, n, ArityOf(c, n), CApp(e, []), args); } else { UnloadUnknown(c, args, n); }
    case CLam(_, _) => FixUnderIff(c, e, args);
    case CLet(_, _, _, _) => FixUnderIff(c, e, args);
    case CApp(_, _) => FixAppIff(c, e, args);
    case CCon(_, _, _) => FixHeldIff(c, e, args);
    case COp(_, _, _) => FixHeldIff(c, e, args);
    case CExtPrim(_, _) => FixHeldIff(c, e, args);
    case CForce(_, _) => FixUnderIff(c, e, args);
    case CDelay(_, _) => FixUnderIff(c, e, args);
    case CConCase(_, _, _) => FixConIff(c, e, args);
    case CConstCase(_, _, _) => FixConstIff(c, e, args);
    case CLocal(_) => UnloadSaturated(c, args, e);
    case CPrimVal(_) => UnloadSaturated(c, args, e);
    case CErased =>
    case CCrash(_) => UnloadSaturated(c, args, e);
  }

  /** These take their arguments one at a time, whatever they hold. */
  lemma FixUnder(c: Context, e: CExp, args: seq<CExp>)
    requires e.CLam? || e.CLet? || e.CForce? || e.CDelay?
    ensures FixArityTm(c, e, args) == Unload(args, FixArityTm(c, e, [])) && !FixArityTm(c, e, []).CRef?
    ensures Settles(c, e, args != []) == Settles(c, e, false) && !Drops(e)
  {
    hide Saturated;
  }

  lemma {:induction false} FixUnderIff(c: Context, e: CExp, args: seq<CExp>)
    requires e.CLam? || e.CLet? || e.CForce? || e.CDelay?
    ensures Saturated(c, FixArityTm(c, e, args)) <==> Settles(c, e, args != []) && (Drops(e) || AllSaturated(c, args))
    decreases e, 0
  {
    match e {
      case CLam(_, b) => FixSaturatesIff(c, b, []);
      case CLet(_, _, v, s) => FixSaturatesIff(c, v, []); FixSaturatesIff(c, s, []);
      case CForce(_, t) => FixSaturatesIff(c, t, []);
      case CDelay(_, t) => FixSaturatesIff(c, t, []);
    }
    assert Saturated(c, FixArityTm(c, e, [])) <==> Settles(c, e, false);
    hide FixArityTm, Saturated, Settles;
    FixUnder(c, e, args);
    UnloadSaturated(c, args, FixArityTm(c, e, []));
  }

  /** A constructor, operator or external primitive. */
  lemma {:induction false} FixHeldIff(c: Context, e: CExp, args: seq<CExp>)
    requires e.CCon? || e.COp? || e.CExtPrim?
    ensures Saturated(c, FixArityTm(c, e, args)) <==> Settles(c, e, args != []) && (Drops(e) || AllSaturated(c, args))
    decreases e, 0
  {
    FixAllIff(c, e.args);
    UnloadSaturated(c, args, e);
  }

  lemma {:induction false} FixAllIff(c: Context, es: seq<CExp>)
    ensures AllSaturated(c, FixAll(c, es)) <==> forall i :: 0 <= i < |es| ==> Settles(c, es[i], false)
    decreases es, 0
  {
    forall i | 0 <= i < |es| ensures Saturated(c, FixAll(c, es)[i]) <==> Settles(c, es[i], false) {
      FixSaturatesIff(c, es[i], []);
    }
  }

  lemma {:induction false} FixAppIff(c: Context, e: CExp, args: seq<CExp>)
    requires e.CApp?
    ensures Saturated(c, FixArityTm(c, e, args)) <==> Settles(c, e, args != []) && (Drops(e) || AllSaturated(c, args))
    decreases e, 0
  {
    if e.f.CRef? && e.f.n !in c {
      UnloadSaturated(c, args, e);
    } else {
      var fs := FixAll(c, e.args);
      FixAllIff(c, e.args);
      FixSaturatesIff(c, e.f, fs + args);
      AllSaturatedAppend(c, fs, args);
      assert FixArityTm(c, e, args) == FixArityTm(c, e.f, fs + args);
      assert fs + args != [] <==> args != [] || e.args != [];
    }
  }

  lemma {:induction false} FixConIff(c: Context, e: CExp, args: seq<CExp>)
    requires e.CConCase?
    ensures Saturated(c, FixArityTm(c, e, args)) <==> Settles(c, e, args != []) && (Drops(e) || AllSaturated(c, args))
    decreases e, 0
  {
    FixSaturatesIff(c, e.scr, []);
    if e.def.Some? { FixSaturatesIff(c, e.def.value, []); }
    var alts := seq(|e.conAlts|, i requires 0 <= i < |e.conAlts| =>
      e.conAlts[i].(body := FixArityTm(c, e.conAlts[i].body, [])));
    forall i | 0 <= i < |alts| ensures Saturated(c, alts[i].body) <==> Settles(c, e.conAlts[i].body, false) {
      assert (e.conAlts decreases to e.conAlts[i]);
      FixSaturatesIff(c, e.conAlts[i].body, []);
    }
    UnloadSaturated(c, args, CConCase(FixArityTm(c, e.scr, []), alts,
      if e.def.Some? then Some(FixArityTm(c, e.def.value, [])) else None));
  }

  lemma {:induction false} FixConstIff(c: Context, e: CExp, args: seq<CExp>)
    requires e.CConstCase?
    ensures Saturated(c, FixArityTm(c, e, args)) <==> Settles(c, e, args != []) && (Drops(e) || AllSaturated(c, args))
    decreases e, 0
  {
    FixSaturatesIff(c, e.scr, []);
    if e.def.Some? { FixSaturatesIff(c, e.def.value, []); }
    var alts := seq(|e.constAlts|, i requires 0 <= i < |e.constAlts| =>
      e.constAlts[i].(body := FixArityTm(c, e.constAlts[i].body, [])));
    forall i | 0 <= i < |alts| ensures Saturated(c, alts[i].body) <==> Settles(c, e.constAlts[i].body, false) {
      assert (e.constAlts decreases to e.constAlts[i]);
      FixSaturatesIff(c, e.constAlts[i].body, []);
    }
    UnloadSaturated(c, args, CConstCase(FixArityTm(c, e.scr, []), alts,
      if e.def.Some? then Some(FixArityTm(c, e.def.value, [])) else None));
  }

  lemma {:induction false} FixableSettles(c: Context, e: CExp, applied: bool)
    requires Fixable(c, e) && ((e.CCon? || e.COp? || e.CExtPrim?) ==> !applied)
    ensures Settles(c, e, applied)
    decreases e
  {
    match e
    case CLam(_, b) => FixableSettles(c, b, false);
    case CLet(_, _, v, s) => FixableSettles(c, v, false); FixableSettles(c, s, false);
    case CApp(f, xs) =>
      FixableSettles(c, f, applied || xs != []);
      forall i | 0 <= i < |xs| { FixableSettles(c, xs[i], false); }
    case CCon(_, _, xs) => forall i | 0 <= i < |xs| { FixableSettles(c, xs[i], false); }
    case COp(_, _, xs) => forall i | 0 <= i < |xs| { FixableSettles(c, xs[i], false); }
    case CExtPrim(_, xs) => forall i | 0 <= i < |xs| { FixableSettles(c, xs[i], false); }
    case CForce(_, t) => FixableSettles(c, t, false);
    case CDelay(_, t) => FixableSettles(c, t, false);
    case CConCase(s, alts, d) =>
      FixableSettles(c, s, false);
      forall i | 0 <= i < |alts| ensures Settles(c, alts[i].body, false) {
        assert (alts decreases to alts[i]);
        FixableSettles(c, alts[i].body, false);
      }
      if d.Some? { FixableSettles(c, d.value, false); }
    case CConstCase(s, alts, d) =>
      FixableSettles(c, s, false);
      forall i | 0 <= i < |alts| ensures Settles(c, alts[i].body, false) {
        assert (alts decreases to alts[i]);
        FixableSettles(c, alts[i].body, false);
      }
      if d.Some? { FixableSettles(c, d.value, false); }
    case _ =>
  }

  /** In particular if all names are known and no constructor, operator or external
      primitive is applied. */
  lemma FixSaturates(c: Context, e: CExp, args: seq<CExp>)
    requires Fixable(c, e) && AllSaturated(c, args) && ((e.CCon? || e.COp? || e.CExtPrim?) ==> args == [])
    ensures Saturated(c, FixArityTm(c, e, args))
  {
    hide FixArityTm, Fixable, Settles, Saturated;
    FixableSettles(c, e, args != []);
    FixSaturatesIff(c, e, args);
  }

  /** A name that is known but not compiled yet is called without arguments, and those it
      was given are applied to the result one by one. */
  lemma UncompiledName(c: Context, n: Name, args: seq<CExp>)
    requires n in c && c[n].None?
    ensures FixArityTm(c, CRef(n), args) == Unload(args, CApp(CRef(n), []))
    ensures (forall i :: 0 <= i < |args| ==> Saturated(c, args[i])) ==> Saturated(c, FixArityTm(c, CRef(n), args))
  {
    UnloadSaturated(c, args, CApp(CRef(n), []));
  }

  /** A constructor that is applied keeps its own arguments as they are, so one that is
      not exact stays so. */
  lemma ConstructorHides(c: Context, con: Name, tag: Option<int>, xs: seq<CExp>, args: seq<CExp>)
    requires args != [] && !AllSaturated(c, xs)
    ensures !Saturated(c, FixArityTm(c, CApp(CCon(con, tag, xs), args), []))
  {
    FixSaturatesIff(c, CApp(CCon(con, tag, xs), args), []);
  }
}

module ArityMeaning {
  import opened Base
  import opened CExpSyntax
  import opened CExpEval
  import opened RenamingCorrect
  import opened CaseOfCaseCorrect
  import opened MergingCorrect
  import opened Arity

  /** Evaluate arguments and call a global with them and further values. */
  ghost function CallWith(p: CProg, fuel: nat, env: seq<CVal>, n: Name, args: seq<CExp>, more: seq<CVal>): Outcome<CVal> {
    var vs :- EvalList(p, fuel, env, args);
    Call(p, fuel, n, vs + more)
  }

  function Join(o: Outcome<seq<CVal>>, o': Outcome<seq<CVal>>): Outcome<seq<CVal>> {
    var vs :- o;
    var ws :- o';
    Value(vs + ws)
  }

  function Cons(v: Outcome<CVal>, o: Outcome<seq<CVal>>): Outcome<seq<CVal>> {
    var x :- v;
    var vs :- o;
    Value([x] + vs)
  }

  lemma JoinCons(v: Outcome<CVal>, o: Outcome<seq<CVal>>, o': Outcome<seq<CVal>>)
    ensures Join(Cons(v, o), o') == Cons(v, Join(o, o')) && Join(Value([]), o') == o'
  {
    if v.Value? && o.Value? && o'.Value? { Assoc([v.v], o.v, o'.v); }
    if o'.Value? { assert [] + o'.v == o'.v; }
  }

  lemma {:induction false} EvalListAppend(p: CProg, fuel: nat, env: seq<CVal>, xs: seq<CExp>, ys: seq<CExp>)
    ensures EvalList(p, fuel, env, xs + ys) == Join(EvalList(p, fuel, env, xs), EvalList(p, fuel, env, ys))
    decreases xs
  {
    hide Eval;
    var o' := EvalList(p, fuel, env, ys);
    if xs == [] {
      assert xs + ys == ys;
      JoinCons(Stuck, Stuck, o');
    } else {
      EvalListAppend(p, fuel, env, xs[1..], ys);
      assert (xs + ys)[1..] == xs[1..] + ys && (xs + ys)[0] == xs[0];
      var v, o := Eval(p, fuel, env, xs[0]), EvalList(p, fuel, env, xs[1..]);
      JoinCons(v, o, o');
      assert EvalList(p, fuel, env, xs) == Cons(v, o);
      assert EvalList(p, fuel, env, xs + ys) == Cons(v, EvalList(p, fuel, env, xs[1..] + ys));
    }
  }

  function Pick(env: seq<CVal>, vs: seq<nat>): (xs: seq<CVal>)
    requires forall i :: 0 <= i < |vs| ==> vs[i] < |env|
    ensures |xs| == |vs|
  {
    seq(|vs|, i requires 0 <= i < |vs| => env[vs[i]])
  }

  lemma {:induction false} EvalLocals(p: CProg, fuel: nat, env: seq<CVal>, vs: seq<nat>)
    requires forall i :: 0 <= i < |vs| ==> vs[i] < |env|
    ensures EvalList(p, fuel, env, Locals(vs)) == Value(Pick(env, vs))
    decreases vs
  {
    if vs != [] {
      EvalLocals(p, fuel, env, vs[1..]);
      assert Locals(vs)[1..] == Locals(vs[1..]);
      assert [env[vs[0]]] + Pick(env, vs[1..]) == Pick(env, vs);
    }
  }

  /** The arguments mean the same under one more lambda. */
  lemma WeakenedArgs(p: CProg, fuel: nat, env: seq<CVal>, x: CVal, n: Name, xs: seq<CExp>, more: seq<CVal>, more': seq<CVal>)
    requires Proper(p) && GoodEnv(env) && Same(x, x) && AllScoped(xs, |env|) && SameAll(more, more')
    ensures Weaken(1, CApp(CRef(n), xs)).CApp? && Weaken(1, CApp(CRef(n), xs)).f == CRef(n)
    ensures AllScoped(Weaken(1, CApp(CRef(n), xs)).args, 1 + |env|)
    ensures SameOutcome(CallWith(p, fuel, env, n, xs, more),
                        CallWith(p, fuel, [x] + env, n, Weaken(1, CApp(CRef(n), xs)).args, more'))
  {
    var r := Insertion(0, 1, |env|);
    WeakenedShape(env, n, xs);
    WeakenedEnv(env, x);
    hide Same, SameEnv, Eval, EvalList, Call, Proper, Insertion, Weaken;
    RenList(p, fuel, r, env, [x] + env, xs);
    var o, o' := EvalList(p, fuel, env, xs), EvalList(p, fuel, [x] + env, RenAll(r, xs));
    if o.Value? {
      SameAllAppend(o.v, o'.v, more, more');
      CallSame(p, fuel, n, o.v + more, o'.v + more');
    }
  }

  lemma SameAllAppend(a: seq<CVal>, a': seq<CVal>, b: seq<CVal>, b': seq<CVal>)
    requires SameAll(a, a') && SameAll(b, b')
    ensures SameAll(a + b, a' + b')
  {
    hide Same;
  }

  lemma WeakenedEnv(env: seq<CVal>, x: CVal)
    requires GoodEnv(env)
    ensures SameEnv(Insertion(0, 1, |env|), env, [x] + env)
  {
    hide Same;
    InsertionEnv([], [x], env);
    assert [] + env == env && [] + ([x] + env) == [x] + env;
  }

  lemma WeakenedShape(env: seq<CVal>, n: Name, xs: seq<CExp>)
    requires AllScoped(xs, |env|)
    ensures
      var e := CApp(CRef(n), xs);
      && Weaken(1, e).CApp? && Weaken(1, e).f == CRef(n) && AllScoped(Weaken(1, e).args, 1 + |env|)
      && Weaken(1, e).args == RenAll(Insertion(0, 1, |env|), xs)
  {
    var e := CApp(CRef(n), xs);
    var r := Insertion(0, 1, |env|);
    WeakenScoped(1, |env|, e);
    assert Weaken(1, e).f == Ren(r, CRef(n)) == CRef(n);
    assert Weaken(1, e).args == RenAll(r, xs);
  }

  /** An eta-expanded application, given what it lacks, calls the name. */
  lemma {:induction false} EtaMeaning(p: CProg, fuel: nat, env: seq<CVal>, n: Name, i: int, k: nat,
                                      xs: seq<CExp>, vs: seq<nat>, more: seq<CVal>)
    requires Proper(p) && fuel > 0 && GoodEnv(env) && GoodEnv(more) && AllScoped(xs, |env|) && |more| == k
    requires forall j :: 0 <= j < |vs| ==> vs[j] < |env|
    ensures SameOutcome(CallWith(p, fuel - 1, env, n, xs, Pick(env, Reverse(vs)) + more),
                        EvalThenApply(p, fuel, env, EtaExpand(i, k, CApp(CRef(n), xs), vs), more))
    decreases k
  {
    if k == 0 {
      EtaBase(p, fuel, env, n, xs, vs);
      assert Pick(env, Reverse(vs)) + more == Pick(env, Reverse(vs));
    } else {
      var e', env', vs' := Weaken(1, CApp(CRef(n), xs)), [more[0]] + env, [0] + Later(vs);
      var o := CallWith(p, fuel - 1, env, n, xs, Pick(env, Reverse(vs)) + more);
      PickLater(env, vs, more);
      WeakenedArgs(p, fuel - 1, env, more[0], n, xs, Pick(env, Reverse(vs)) + more, Pick(env', Reverse(vs')) + more[1..]);
      EtaMeaning(p, fuel, env', n, i + 1, k - 1, e'.args, vs', more[1..]);
      var b := EtaExpand(i + 1, k - 1, e', vs');
      assert EvalThenApply(p, fuel, env, CLam(MN("eta", i), b), more) == EvalThenApply(p, fuel, env', b, more[1..]);
      SameOutcomeTrans(o, CallWith(p, fuel - 1, env', n, e'.args, Pick(env', Reverse(vs')) + more[1..]),
                       EvalThenApply(p, fuel, env', b, more[1..]));
    }
  }

  lemma PickLater(env: seq<CVal>, vs: seq<nat>, more: seq<CVal>)
    requires more != [] && forall j :: 0 <= j < |vs| ==> vs[j] < |env|
    ensures
      var env', vs' := [more[0]] + env, [0] + Later(vs);
      && (forall j :: 0 <= j < |vs'| ==> vs'[j] < |env'|)
      && Pick(env', Reverse(vs')) + more[1..] == Pick(env, Reverse(vs)) + more
  {
    hide Reverse;
    var env', vs' := [more[0]] + env, [0] + Later(vs);
    var a, b := Pick(env', Reverse(vs')), Pick(env, Reverse(vs));
    assert |a| == |b| + 1;
    forall j | 0 <= j < |b| ensures a[j] == b[j] { }
    assert a[|b|] == more[0];
    assert a + more[1..] == b + more;
  }

  lemma EtaBase(p: CProg, fuel: nat, env: seq<CVal>, n: Name, xs: seq<CExp>, vs: seq<nat>)
    requires Proper(p) && fuel > 0 && GoodEnv(env) && AllScoped(xs, |env|)
    requires forall j :: 0 <= j < |vs| ==> vs[j] < |env|
    ensures SameOutcome(CallWith(p, fuel - 1, env, n, xs, Pick(env, Reverse(vs))),
                        EvalThenApply(p, fuel, env, EtaExpand(0, 0, CApp(CRef(n), xs), vs), []))
  {
    hide Same, EtaExpand, Eval, Locals, CallWith, Reverse, Proper, SameOutcome, GoodEnv;
    var e := CApp(CRef(n), xs + Locals(Reverse(vs)));
    EtaForm(n, xs, vs);
    CallForm(p, fuel - 1, env, n, xs, Reverse(vs));
    LocalsScoped(Reverse(vs), |env|);
    AllScopedAppend(n, xs, Locals(Reverse(vs)), |env|);
    ApplyNone(p, fuel, env, e);
    EvalGood(p, fuel - 1, env, e);
  }

  lemma ApplyNone(p: CProg, fuel: nat, env: seq<CVal>, e: CExp)
    requires fuel > 0
    ensures EvalThenApply(p, fuel, env, e, []) == Eval(p, fuel - 1, env, e)
  {
    hide Eval;
  }

  lemma AllScopedAppend(n: Name, xs: seq<CExp>, ys: seq<CExp>, k: nat)
    requires AllScoped(xs, k) && AllScoped(ys, k)
    ensures Scoped(CApp(CRef(n), xs + ys), k)
  {
  }

  lemma LocalsScoped(vs: seq<nat>, n: nat)
    requires forall j :: 0 <= j < |vs| ==> vs[j] < n
    ensures AllScoped(Locals(vs), n)
  {
  }

  lemma EtaForm(n: Name, xs: seq<CExp>, vs: seq<nat>)
    ensures EtaExpand(0, 0, CApp(CRef(n), xs), vs) == CApp(CRef(n), xs + Locals(Reverse(vs)))
  {
    if vs == [] { assert Locals(Reverse(vs)) == [] && xs + [] == xs; }
  }

  lemma CallForm(p: CProg, fuel: nat, env: seq<CVal>, n: Name, xs: seq<CExp>, vs: seq<nat>)
    requires forall j :: 0 <= j < |vs| ==> vs[j] < |env|
    ensures Eval(p, fuel, env, CApp(CRef(n), xs + Locals(vs))) == CallWith(p, fuel, env, n, xs, Pick(env, vs))
  {
    EvalListAppend(p, fuel, env, xs, Locals(vs));
    EvalLocals(p, fuel, env, vs);
  }

  /** `expandToArity` on a name with at most as many arguments as it takes: given the
      missing ones, the result calls the name on all of them. */
  lemma {:induction false} ExpandMeaning(p: CProg, fuel: nat, env: seq<CVal>, n: Name, k: nat, done: seq<CExp>,
                                         args: seq<CExp>, more: seq<CVal>)
    requires Proper(p) && fuel > 0 && GoodEnv(env) && GoodEnv(more) && AllScoped(done, |env|) && AllScoped(args, |env|)
    requires |args| + |more| == k
    ensures SameOutcome(CallWith(p, fuel - 1, env, n, done + args, more),
                        EvalThenApply(p, fuel, env, ExpandToArity(k, CApp(CRef(n), done), args), more))
    decreases k
  {
    if args == [] {
      assert done + args == done && more == Pick(env, Reverse([])) + more;
      EtaMeaning(p, fuel, env, n, 0, k, done, [], more);
      if k == 0 { EtaForm(n, done, []); }
    } else {
      assert done + args == (done + [args[0]]) + args[1..];
      ExpandMeaning(p, fuel, env, n, k - 1, done + [args[0]], args[1..], more);
    }
  }

  /** Given more, the result calls the name on what it takes and applies the outcome
      to the rest, one at a time. */
  lemma {:induction false} ExpandOverMeaning(p: CProg, fuel: nat, env: seq<CVal>, n: Name, k: nat,
                                             done: seq<CExp>, args: seq<CExp>)
    requires k <= |args|
    ensures Eval(p, fuel, env, ExpandToArity(k, CApp(CRef(n), done), args)) ==
      var g :- CallWith(p, fuel, env, n, done + args[..k], []);
      EvalApps(p, fuel, env, g, args[k..])
    decreases k
  {
    if k == 0 {
      UnloadMeaning(p, fuel, env, args, CApp(CRef(n), done));
      assert done + args[..0] == done && args[0..] == args;
      CallForm(p, fuel, env, n, done, []);
      assert done + Locals([]) == done && Pick(env, []) == [];
    } else {
      assert done + args[..k] == (done + [args[0]]) + args[1..][..k - 1] && args[k..] == args[1..][k - 1..];
      ExpandOverMeaning(p, fuel, env, n, k - 1, done + [args[0]], args[1..]);
    }
  }

  lemma {:induction false} UnloadMeaning(p: CProg, fuel: nat, env: seq<CVal>, args: seq<CExp>, e: CExp)
    requires !e.CRef?
    ensures Eval(p, fuel, env, Unload(args, e)) ==
      var g :- Eval(p, fuel, env, e);
      EvalApps(p, fuel, env, g, args)
    decreases args
  {
    if args != [] {
      UnloadMeaning(p, fuel, env, args[1..], CApp(e, [args[0]]));
      var o := Eval(p, fuel, env, e);
      if o.Value? { OneApp(p, fuel, env, o.v, args[0]); }
    }
  }

  lemma OneApp(p: CProg, fuel: nat, env: seq<CVal>, g: CVal, a: CExp)
    ensures EvalApps(p, fuel, env, g, [a]) ==
      var v :- Eval(p, fuel, env, a);
      Apply(p, fuel, g, v)
  {
    var v := Eval(p, fuel, env, a);
    if v.Value? {
      var h := Apply(p, fuel, g, v.v);
      if h.Value? { assert EvalApps(p, fuel, env, h.v, [a][1..]) == Value(h.v); }
    }
  }
}

/** Arity fixing and lambda lifting agree on how many arguments a name takes. */
module ArityLifted {
  import opened Base
  import opened CExpSyntax
  import opened LiftedSyntax
  import opened LambdaLift
  import opened Arity

  /** How many arguments a call of a lifted definition passes. */
  function Params(d: LiftedDef): nat {
    match d
    case MkLFun(args, scope, _) => |args| + |scope|
    case MkLCon(_, arity) => arity
    case MkLForeign(arity) => arity
    case MkLError(_) => 0
  }

  lemma ArityIsParams(n: Name, d: CDef)
    requires ScopedDef(d)
    ensures LambdaLiftDef(n, d)[0].0 == n && Params(LambdaLiftDef(n, d)[0].1) == GetArity(d)
  {
  }
}

/** A meaning for `CExp` in which a global name may be applied to any number of
    arguments: with too few it is a partial application, and each further argument is
    applied to the result. This is what terms mean before their arities are fixed. */
module CurriedEval {
  import opened Base
  import opened CExpSyntax
  import Arity

  datatype UVal =
    | UCon(key: ConKey, args: seq<UVal>)
    | UConst(c: Constant)
    | UErased
    | UClo(env: seq<UVal>, body: CExp)
    | UThunk(env: seq<UVal>, body: CExp)
    | UPap(n: Name, args: seq<UVal>)

  datatype UProg = UProg(defs: map<Name, CDef>, prim: (PrimKey, seq<UVal>) -> Outcome<UVal>)

  function UPickCon(alts: seq<CConAlt>, v: UVal): (r: Option<nat>)
    ensures r.Some? ==> r.value < |alts| && v.UCon?
  {
    if v.UCon? then Find(seq(|alts|, i requires 0 <= i < |alts| => KeyOf(alts[i].con, alts[i].tag)), v.key) else None
  }

  function UPickConst(alts: seq<CConstAlt>, v: UVal): (r: Option<nat>)
    ensures r.Some? ==> r.value < |alts|
  {
    if v.UConst? then Find(seq(|alts|, i requires 0 <= i < |alts| => alts[i].c), v.c) else None
  }

  ghost function UEval(p: UProg, fuel: nat, env: seq<UVal>, e: CExp): Outcome<UVal>
    decreases fuel, 2, e
  {
    match e
    case CLocal(i) => if i < |env| then Value(env[i]) else Stuck
    case CRef(n) => UName(p, fuel, n)
    case CLam(_, b) => Value(UClo(env, b))
    case CLet(_, _, v, s) =>
      var x :- UEval(p, fuel, env, v);
      UEval(p, fuel, [x] + env, s)
    case CApp(f, args) =>
      var g :- UEval(p, fuel, env, f);
      UApps(p, fuel, env, g, args)
    case CCon(n, t, args) =>
      var vs :- UEvalList(p, fuel, env, args);
      Value(UCon(KeyOf(n, t), vs))
    case COp(op, _, args) =>
      var vs :- UEvalList(p, fuel, env, args);
      p.prim(OpKey(op), vs)
    case CExtPrim(n, args) =>
      var vs :- UEvalList(p, fuel, env, args);
      p.prim(ExtKey(n), vs)
    case CForce(_, t) =>
      var x :- UEval(p, fuel, env, t);
      UForce(p, fuel, x)
    case CDelay(_, t) => Value(UThunk(env, t))
    case CConCase(s, alts, d) =>
      var x :- UEval(p, fuel, env, s);
      var pick := UPickCon(alts, x);
      if pick.Some? then
        var alt := alts[pick.value];
        if |alt.args| == |x.args| then UEval(p, fuel, x.args + env, alt.body) else Stuck
      else if d.Some? then UEval(p, fuel, env, d.value) else Stuck
    case CConstCase(s, alts, d) =>
      var x :- UEval(p, fuel, env, s);
      var pick := UPickConst(alts, x);
      if pick.Some? then UEval(p, fuel, env, alts[pick.value].body)
      else if d.Some? then UEval(p, fuel, env, d.value) else Stuck
    case CPrimVal(c) => Value(UConst(c))
    case CErased => Value(UErased)
    case CCrash(m) => Crash(m)
  }

  ghost function UEvalList(p: UProg, fuel: nat, env: seq<UVal>, es: seq<CExp>): (r: Outcome<seq<UVal>>)
    ensures r.Value? ==> |r.v| == |es|
    decreases fuel, 2, es
  {
    if es == [] then Value([])
    else
      var v :- UEval(p, fuel, env, es[0]);
      var vs :- UEvalList(p, fuel, env, es[1..]);
      Value([v] + vs)
  }

  ghost function UApps(p: UProg, fuel: nat, env: seq<UVal>, g: UVal, es: seq<CExp>): Outcome<UVal>
    decreases fuel, 2, es
  {
    if es == [] then Value(g)
    else
      var v :- UEval(p, fuel, env, es[0]);
      var h :- UApply(p, fuel, g, v);
      UApps(p, fuel, env, h, es[1..])
  }

  /** A name with no arguments yet. */
  ghost function UName(p: UProg, fuel: nat, n: Name): Outcome<UVal>
    decreases fuel, 1
  {
    if n !in p.defs then Stuck
    else if Arity.GetArity(p.defs[n]) == 0 then UCall(p, fuel, n, [])
    else Value(UPap(n, []))
  }

  ghost function UApply(p: UProg, fuel: nat, g: UVal, v: UVal): Outcome<UVal>
    decreases fuel, 1
  {
    match g
    case UClo(env, b) => if fuel == 0 then Timeout else UEval(p, fuel - 1, [v] + env, b)
    case UPap(n, vs) =>
      if n !in p.defs then Stuck
      else if |vs| + 1 < Arity.GetArity(p.defs[n]) then Value(UPap(n, vs + [v]))
      else UCall(p, fuel, n, vs + [v])
    case _ => Stuck
  }

  ghost function UForce(p: UProg, fuel: nat, v: UVal): Outcome<UVal>
    decreases fuel, 1
  {
    if !v.UThunk? then Stuck
    else if fuel == 0 then Timeout
    else UEval(p, fuel - 1, v.env, v.body)
  }

  ghost function UCall(p: UProg, fuel: nat, n: Name, vs: seq<UVal>): Outcome<UVal>
    decreases fuel, 0
  {
    if n !in p.defs then Stuck
    else match p.defs[n]
      case MkFun(args, body) =>
        if |vs| != |args| then Stuck
        else if fuel == 0 then Timeout
        else UEval(p, fuel - 1, vs, body)
      case MkCon(_, _) => Stuck
      case MkForeign(arity) => if |vs| == arity then p.prim(ForeignKey(n), vs) else Stuck
      case MkError(expl) => if fuel == 0 then Timeout else UEval(p, fuel - 1, [], expl)
  }

  /** Apply a value to values one at a time. */
  ghost function UApplyAll(p: UProg, fuel: nat, g: UVal, vs: seq<UVal>): Outcome<UVal>
    decreases vs
  {
    if vs == [] then Value(g)
    else
      var h :- UApply(p, fuel, g, vs[0]);
      UApplyAll(p, fuel, h, vs[1..])
  }

  lemma {:induction false} UApplyAppend(p: UProg, fuel: nat, g: UVal, xs: seq<UVal>, ys: seq<UVal>)
    ensures UApplyAll(p, fuel, g, xs + ys) ==
      var h :- UApplyAll(p, fuel, g, xs);
      UApplyAll(p, fuel, h, ys)
    decreases xs
  {
    if xs == [] {
      assert xs + ys == ys;
    } else {
      assert (xs + ys)[1..] == xs[1..] + ys && (xs + ys)[0] == xs[0];
      var h := UApply(p, fuel, g, xs[0]);
      if h.Value? { UApplyAppend(p, fuel, h.v, xs[1..], ys); }
    }
  }

  /** Arguments that are evaluated and applied in turn could be evaluated first. */
  lemma {:induction false} UAppsSplit(p: UProg, fuel: nat, env: seq<UVal>, g: UVal, es: seq<CExp>)
    requires UApps(p, fuel, env, g, es).Value?
    ensures UEvalList(p, fuel, env, es).Value?
    ensures UApplyAll(p, fuel, g, UEvalList(p, fuel, env, es).v) == UApps(p, fuel, env, g, es)
    decreases es
  {
    if es != [] {
      var v := UEval(p, fuel, env, es[0]).v;
      var h := UApply(p, fuel, g, v).v;
      UAppsSplit(p, fuel, env, h, es[1..]);
      var vs := UEvalList(p, fuel, env, es[1..]).v;
      assert ([v] + vs)[1..] == vs;
    }
  }
}

/** A call-by-value meaning for `CExp`. Fuel bounds the depth of calls,
    applications and forces; nothing else consumes it. */
module CExpEval {
  import opened Base
  import opened CExpSyntax

  datatype CVal =
    | CVCon(key: ConKey, args: seq<CVal>)
    | CVConst(c: Constant)
    | CVErased
    | CVClo(env: seq<CVal>, body: CExp)    // the value of a lambda with this body
    | CVThunk(env: seq<CVal>, body: CExp)  // the value of a delayed term

  /** A program: its definitions, and what its primitives compute. */
  datatype CProg = CProg(defs: map<Name, CDef>, prim: (PrimKey, seq<CVal>) -> Outcome<CVal>)

  function AltKeys(alts: seq<CConAlt>): (ks: seq<ConKey>)
    ensures |ks| == |alts|
  {
    seq(|alts|, i requires 0 <= i < |alts| => KeyOf(alts[i].con, alts[i].tag))
  }

  function AltConsts(alts: seq<CConstAlt>): (cs: seq<Constant>)
    ensures |cs| == |alts|
  {
    seq(|alts|, i requires 0 <= i < |alts| => alts[i].c)
  }

  /** The first alternative that matches a value, if any. */
  function PickCon(alts: seq<CConAlt>, v: CVal): (r: Option<nat>)
    ensures r.Some? ==> r.value < |alts| && v.CVCon?
  {
    if v.CVCon? then Find(AltKeys(alts), v.key) else None
  }

  function PickConst(alts: seq<CConstAlt>, v: CVal): (r: Option<nat>)
    ensures r.Some? ==> r.value < |alts|
  {
    if v.CVConst? then Find(AltConsts(alts), v.c) else None
  }

  ghost function Eval(p: CProg, fuel: nat, env: seq<CVal>, e: CExp): Outcome<CVal>
    decreases fuel, 1, e
  {
    match e
    case CLocal(i) => if i < |env| then Value(env[i]) else Stuck
    case CRef(n) => Call(p, fuel, n, [])
    case CLam(_, b) => Value(CVClo(env, b))
    case CLet(_, _, v, s) =>
      var x :- Eval(p, fuel, env, v);
      Eval(p, fuel, [x] + env, s)
    case CApp(f, args) =>
      if f.CRef? then
        var vs :- EvalList(p, fuel, env, args);
        Call(p, fuel, f.n, vs)
      else
        var g :- Eval(p, fuel, env, f);
        EvalApps(p, fuel, env, g, args)
    case CCon(n, t, args) =>
      var vs :- EvalList(p, fuel, env, args);
      Value(CVCon(KeyOf(n, t), vs))
    case COp(op, _, args) =>
      var vs :- EvalList(p, fuel, env, args);
      p.prim(OpKey(op), vs)
    case CExtPrim(n, args) =>
      var vs :- EvalList(p, fuel, env, args);
      p.prim(ExtKey(n), vs)
    case CForce(_, t) =>
      var x :- Eval(p, fuel, env, t);
      Force(p, fuel, x)
    case CDelay(_, t) => Value(CVThunk(env, t))
    case CConCase(s, alts, d) =>
      var x :- Eval(p, fuel, env, s);
      var pick := PickCon(alts, x);
      if pick.Some? then
        var alt := alts[pick.value];
        if |alt.args| == |x.args| then Eval(p, fuel, x.args + env, alt.body) else Stuck
      else if d.Some? then Eval(p, fuel, env, d.value) else Stuck
    case CConstCase(s, alts, d) =>
      var x :- Eval(p, fuel, env, s);
      var pick := PickConst(alts, x);
      if pick.Some? then Eval(p, fuel, env, alts[pick.value].body)
      else if d.Some? then Eval(p, fuel, env, d.value) else Stuck
    case CPrimVal(c) => Value(CVConst(c))
    case CErased => Value(CVErased)
    case CCrash(m) => Crash(m)
  }

  ghost function EvalList(p: CProg, fuel: nat, env: seq<CVal>, es: seq<CExp>): (r: Outcome<seq<CVal>>)
    ensures r.Value? ==> |r.v| == |es|
    decreases fuel, 1, es
  {
    if es == [] then Value([])
    else
      var v :- Eval(p, fuel, env, es[0]);
      var vs :- EvalList(p, fuel, env, es[1..]);
      Value([v] + vs)
  }

  /** Apply a function value to each argument in turn. */
  ghost function EvalApps(p: CProg, fuel: nat, env: seq<CVal>, g: CVal, es: seq<CExp>): Outcome<CVal>
    decreases fuel, 1, es
  {
    if es == [] then Value(g)
    else
      var v :- Eval(p, fuel, env, es[0]);
      var h :- Apply(p, fuel, g, v);
      EvalApps(p, fuel, env, h, es[1..])
  }

  ghost function Apply(p: CProg, fuel: nat, g: CVal, v: CVal): Outcome<CVal>
    decreases fuel, 0
  {
    if !g.CVClo? then Stuck
    else if fuel == 0 then Timeout
    else Eval(p, fuel - 1, [v] + g.env, g.body)
  }

  ghost function Force(p: CProg, fuel: nat, v: CVal): Outcome<CVal>
    decreases fuel, 0
  {
    if !v.CVThunk? then Stuck
    else if fuel == 0 then Timeout
    else Eval(p, fuel - 1, v.env, v.body)
  }

  /** A global takes exactly its arity in arguments; an error definition runs
      whatever it is given. */
  ghost function Call(p: CProg, fuel: nat, n: Name, vs: seq<CVal>): Outcome<CVal>
    decreases fuel, 0
  {
    if n !in p.defs then Stuck
    else match p.defs[n]
      case MkFun(args, body) =>
        if |vs| != |args| then Stuck
        else if fuel == 0 then Timeout
        else Eval(p, fuel - 1, vs, body)
      case MkCon(_, _) => Stuck
      case MkForeign(arity) => if |vs| == arity then p.prim(ForeignKey(n), vs) else Stuck
      case MkError(expl) => if fuel == 0 then Timeout else Eval(p, fuel - 1, [], expl)
  }
}

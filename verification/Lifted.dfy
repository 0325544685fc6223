/** The lambda-lifted representation and its meaning, over first-order values
    (the data types of Compiler/LambdaLift.idr). */
module LiftedSyntax {
  import opened Base

  datatype Lifted =
    | LLocal(i: nat)
    | LAppName(n: Name, args: seq<Lifted>)
    | LUnderApp(n: Name, missing: nat, args: seq<Lifted>)
    | LApp(closure: Lifted, arg: Lifted)
    | LLet(x: Name, expr: Lifted, body: Lifted)
    | LCon(con: Name, tag: Option<int>, args: seq<Lifted>)
    | LOp(op: string, arity: nat, args: seq<Lifted>)
    | LExtPrim(p: Name, args: seq<Lifted>)
    | LConCase(scr: Lifted, conAlts: seq<LiftedConAlt>, def: Option<Lifted>)
    | LConstCase(scr: Lifted, constAlts: seq<LiftedConstAlt>, def: Option<Lifted>)
    | LPrimVal(c: Constant)
    | LErased
    | LCrash(msg: string)

  datatype LiftedConAlt = MkLConAlt(con: Name, tag: Option<int>, args: Scope, body: Lifted)

  datatype LiftedConstAlt = MkLConstAlt(c: Constant, body: Lifted)

  /** `MkLFun` takes `args` first, then `scope` reversed; its body sees `scope + args`. */
  datatype LiftedDef =
    | MkLFun(args: Scope, scope: Scope, body: Lifted)
    | MkLCon(tag: Option<int>, arity: nat)
    | MkLForeign(arity: nat)
    | MkLError(expl: Lifted)

  predicate LScoped(l: Lifted, n: nat) {
    match l
    case LLocal(i) => i < n
    case LAppName(_, args) => forall i :: 0 <= i < |args| ==> LScoped(args[i], n)
    case LUnderApp(_, _, args) => forall i :: 0 <= i < |args| ==> LScoped(args[i], n)
    case LApp(c, a) => LScoped(c, n) && LScoped(a, n)
    case LLet(_, v, b) => LScoped(v, n) && LScoped(b, n + 1)
    case LCon(_, _, args) => forall i :: 0 <= i < |args| ==> LScoped(args[i], n)
    case LOp(_, arity, args) =>
      |args| == arity && forall i :: 0 <= i < |args| ==> LScoped(args[i], n)
    case LExtPrim(_, args) => forall i :: 0 <= i < |args| ==> LScoped(args[i], n)
    case LConCase(s, alts, d) =>
      LScoped(s, n) &&
      (forall i :: 0 <= i < |alts| ==> LScoped(alts[i].body, |alts[i].args| + n)) &&
      (d.Some? ==> LScoped(d.value, n))
    case LConstCase(s, alts, d) =>
      LScoped(s, n) &&
      (forall i :: 0 <= i < |alts| ==> LScoped(alts[i].body, n)) &&
      (d.Some? ==> LScoped(d.value, n))
    case LPrimVal(_) => true
    case LErased => true
    case LCrash(_) => true
  }

  predicate LScopedDef(d: LiftedDef) {
    match d
    case MkLFun(args, scope, body) => LScoped(body, |scope| + |args|)
    case MkLError(expl) => LScoped(expl, 0)
    case _ => true
  }

  /** Does variable `j` occur free? */
  predicate Occurs(j: nat, l: Lifted)
    decreases l
  {
    match l
    case LLocal(i) => i == j
    case LAppName(_, args) => exists i :: 0 <= i < |args| && Occurs(j, args[i])
    case LUnderApp(_, _, args) => exists i :: 0 <= i < |args| && Occurs(j, args[i])
    case LApp(c, a) => Occurs(j, c) || Occurs(j, a)
    case LLet(_, v, b) => Occurs(j, v) || Occurs(j + 1, b)
    case LCon(_, _, args) => exists i :: 0 <= i < |args| && Occurs(j, args[i])
    case LOp(_, _, args) => exists i :: 0 <= i < |args| && Occurs(j, args[i])
    case LExtPrim(_, args) => exists i :: 0 <= i < |args| && Occurs(j, args[i])
    case LConCase(s, alts, d) =>
      Occurs(j, s) ||
      (exists i :: 0 <= i < |alts| && Occurs(|alts[i].args| + j, alts[i].body)) ||
      (d.Some? && Occurs(j, d.value))
    case LConstCase(s, alts, d) =>
      Occurs(j, s) ||
      (exists i :: 0 <= i < |alts| && Occurs(j, alts[i].body)) ||
      (d.Some? && Occurs(j, d.value))
    case LPrimVal(_) => false
    case LErased => false
    case LCrash(_) => false
  }
}

module LiftedEval {
  import opened Base
  import opened LiftedSyntax

  /** Values of the lifted, ANF and VM representations. `VPap` is a global
      waiting for `missing` more arguments. */
  datatype Val =
    | VCon(key: ConKey, args: seq<Val>)
    | VConst(c: Constant)
    | VErased
    | VPap(n: Name, missing: nat, args: seq<Val>)

  type Prims = (PrimKey, seq<Val>) -> Outcome<Val>

  datatype LProg = LProg(defs: map<Name, LiftedDef>, prim: Prims)

  function LAltKeys(alts: seq<LiftedConAlt>): (ks: seq<ConKey>)
    ensures |ks| == |alts|
  {
    seq(|alts|, i requires 0 <= i < |alts| => KeyOf(alts[i].con, alts[i].tag))
  }

  function LAltConsts(alts: seq<LiftedConstAlt>): (cs: seq<Constant>)
    ensures |cs| == |alts|
  {
    seq(|alts|, i requires 0 <= i < |alts| => alts[i].c)
  }

  /** Which of some alternatives, given by their keys, a value selects. */
  function PickKey(keys: seq<ConKey>, v: Val): (r: Option<nat>)
    ensures r.Some? ==> r.value < |keys| && v.VCon? && keys[r.value] == v.key
  {
    if v.VCon? then Find(keys, v.key) else None
  }

  function PickVal(cs: seq<Constant>, v: Val): (r: Option<nat>)
    ensures r.Some? ==> r.value < |cs|
  {
    if v.VConst? then Find(cs, v.c) else None
  }

  ghost function LEval(p: LProg, fuel: nat, env: seq<Val>, l: Lifted): Outcome<Val>
    decreases fuel, 1, l
  {
    match l
    case LLocal(i) => if i < |env| then Value(env[i]) else Stuck
    case LAppName(n, args) =>
      var vs :- LEvalList(p, fuel, env, args);
      LCall(p, fuel, n, vs)
    case LUnderApp(n, m, args) =>
      var vs :- LEvalList(p, fuel, env, args);
      Value(VPap(n, m, vs))
    case LApp(c, a) =>
      var g :- LEval(p, fuel, env, c);
      var v :- LEval(p, fuel, env, a);
      LApply(p, fuel, g, v)
    case LLet(_, e, b) =>
      var v :- LEval(p, fuel, env, e);
      LEval(p, fuel, [v] + env, b)
    case LCon(n, t, args) =>
      var vs :- LEvalList(p, fuel, env, args);
      Value(VCon(KeyOf(n, t), vs))
    case LOp(op, _, args) =>
      var vs :- LEvalList(p, fuel, env, args);
      p.prim(OpKey(op), vs)
    case LExtPrim(n, args) =>
      var vs :- LEvalList(p, fuel, env, args);
      p.prim(ExtKey(n), vs)
    case LConCase(s, alts, d) =>
      var v :- LEval(p, fuel, env, s);
      var pick := PickKey(LAltKeys(alts), v);
      if pick.Some? then
        var alt := alts[pick.value];
        if |alt.args| == |v.args| then LEval(p, fuel, v.args + env, alt.body) else Stuck
      else if d.Some? then LEval(p, fuel, env, d.value) else Stuck
    case LConstCase(s, alts, d) =>
      var v :- LEval(p, fuel, env, s);
      var pick := PickVal(LAltConsts(alts), v);
      if pick.Some? then LEval(p, fuel, env, alts[pick.value].body)
      else if d.Some? then LEval(p, fuel, env, d.value) else Stuck
    case LPrimVal(c) => Value(VConst(c))
    case LErased => Value(VErased)
    case LCrash(m) => Crash(m)
  }

  ghost function LEvalList(p: LProg, fuel: nat, env: seq<Val>, ls: seq<Lifted>): (r: Outcome<seq<Val>>)
    ensures r.Value? ==> |r.v| == |ls|
    decreases fuel, 1, ls
  {
    if ls == [] then Value([])
    else
      var v :- LEval(p, fuel, env, ls[0]);
      var vs :- LEvalList(p, fuel, env, ls[1..]);
      Value([v] + vs)
  }

  ghost function LApply(p: LProg, fuel: nat, g: Val, v: Val): Outcome<Val>
    decreases fuel, 0, 1
  {
    if !g.VPap? || g.missing == 0 then Stuck
    else if fuel == 0 then Timeout
    else if g.missing == 1 then LCall(p, fuel, g.n, g.args + [v])
    else Value(VPap(g.n, g.missing - 1, g.args + [v]))
  }

  /** The environment a lifted function's body sees. */
  function EntryEnv(nargs: nat, vs: seq<Val>): (env: seq<Val>)
    requires nargs <= |vs|
    ensures |env| == |vs|
  {
    Reverse(vs[nargs..]) + vs[..nargs]
  }

  ghost function LCall(p: LProg, fuel: nat, n: Name, vs: seq<Val>): Outcome<Val>
    decreases fuel, 0, 0
  {
    if n !in p.defs then Stuck
    else match p.defs[n]
      case MkLFun(args, scope, body) =>
        if |vs| != |args| + |scope| then Stuck
        else if fuel == 0 then Timeout
        else LEval(p, fuel - 1, EntryEnv(|args|, vs), body)
      case MkLCon(_, _) => Stuck
      case MkLForeign(arity) => if |vs| == arity then p.prim(ForeignKey(n), vs) else Stuck
      case MkLError(expl) => if fuel == 0 then Timeout else LEval(p, fuel - 1, [], expl)
  }
}

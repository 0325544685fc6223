/** Administrative normal form (Compiler/ANF.idr): every argument is a numbered
    variable, or the erased one. */
module ANFSyntax {
  import opened Base
  import opened LiftedEval

  datatype AVar = ALocal(i: int) | AErasedVar

  datatype ANF =
    | AV(v: AVar)
    | AAppName(n: Name, args: seq<AVar>)
    | AUnderApp(n: Name, missing: nat, args: seq<AVar>)
    | AApp(closure: AVar, arg: AVar)
    | ALet(x: int, val: ANF, body: ANF)
    | ACon(con: Name, tag: Option<int>, args: seq<AVar>)
    | AOp(op: string, args: seq<AVar>)
    | AExtPrim(p: Name, args: seq<AVar>)
    | AConCase(scr: AVar, conAlts: seq<AConAlt>, def: Option<ANF>)
    | AConstCase(scr: AVar, constAlts: seq<AConstAlt>, def: Option<ANF>)
    | APrimVal(c: Constant)
    | AErased
    | ACrash(msg: string)

  datatype AConAlt = MkAConAlt(con: Name, tag: Option<int>, args: seq<int>, body: ANF)

  datatype AConstAlt = MkAConstAlt(c: Constant, body: ANF)

  datatype ADef =
    | MkAFun(args: seq<int>, body: ANF)
    | MkACon(tag: Option<int>, arity: nat)
    | MkAForeign(arity: nat)
    | MkAError(expl: ANF)

  /** The variables a term binds. */
  function Binders(a: ANF): set<int> {
    match a
    case ALet(x, v, b) => {x} + Binders(v) + Binders(b)
    case AConCase(_, alts, d) => ConBinders(alts) + (if d.Some? then Binders(d.value) else {})
    case AConstCase(_, alts, d) => ConstBinders(alts) + (if d.Some? then Binders(d.value) else {})
    case _ => {}
  }

  function ConBinders(alts: seq<AConAlt>): set<int> {
    if alts == [] then {}
    else ToSet(alts[0].args) + Binders(alts[0].body) + ConBinders(alts[1..])
  }

  function ConstBinders(alts: seq<AConstAlt>): set<int> {
    if alts == [] then {}
    else
      assert (alts decreases to alts[0]);
      Binders(alts[0].body) + ConstBinders(alts[1..])
  }

  predicate Distinct(xs: seq<int>) {
    forall i, j :: 0 <= i < j < |xs| ==> xs[i] != xs[j]
  }

  /** No variable is bound twice anywhere in the term. */
  predicate BoundOnce(a: ANF) {
    match a
    case ALet(x, v, b) =>
      BoundOnce(v) && BoundOnce(b) && {x} !! Binders(v) !! Binders(b)
    case AConCase(_, alts, d) =>
      ConBoundOnce(alts) &&
      (d.Some? ==> BoundOnce(d.value) && ConBinders(alts) !! Binders(d.value))
    case AConstCase(_, alts, d) =>
      ConstBoundOnce(alts) &&
      (d.Some? ==> BoundOnce(d.value) && ConstBinders(alts) !! Binders(d.value))
    case _ => true
  }

  predicate ConBoundOnce(alts: seq<AConAlt>) {
    alts == [] ||
    (Distinct(alts[0].args) && BoundOnce(alts[0].body) && ConBoundOnce(alts[1..]) &&
     ToSet(alts[0].args) !! Binders(alts[0].body) !! ConBinders(alts[1..]))
  }

  predicate ConstBoundOnce(alts: seq<AConstAlt>) {
    alts == [] ||
    (assert (alts decreases to alts[0]);
     BoundOnce(alts[0].body) && ConstBoundOnce(alts[1..]) &&
     Binders(alts[0].body) !! ConstBinders(alts[1..]))
  }

  function VarsOf(vs: seq<AVar>): set<AVar> { set v | v in vs }

  function LocalsOf(xs: seq<int>): set<AVar> { set i | i in xs :: ALocal(i) }

  /** The source's `freeVariables`. */
  function FreeVariables(a: ANF): set<AVar> {
    match a
    case AV(v) => {v}
    case AAppName(_, args) => VarsOf(args)
    case AUnderApp(_, _, args) => VarsOf(args)
    case AApp(c, x) => {c, x}
    case ALet(x, v, b) => FreeVariables(v) + (FreeVariables(b) - {ALocal(x)})
    case ACon(_, _, args) => VarsOf(args)
    case AOp(_, args) => VarsOf(args)
    case AExtPrim(_, args) => VarsOf(args)
    case AConCase(s, alts, d) =>
      {s} + FreeInAlts(alts) + (if d.Some? then FreeVariables(d.value) else {})
    case AConstCase(s, alts, d) =>
      {s} + FreeInConstAlts(alts) + (if d.Some? then FreeVariables(d.value) else {})
    case _ => {}
  }

  function FreeInAlts(alts: seq<AConAlt>): set<AVar> {
    if alts == [] then {}
    else (FreeVariables(alts[0].body) - LocalsOf(alts[0].args)) + FreeInAlts(alts[1..])
  }

  function FreeInConstAlts(alts: seq<AConstAlt>): set<AVar> {
    if alts == [] then {}
    else
      assert (alts decreases to alts[0]);
      FreeVariables(alts[0].body) + FreeInConstAlts(alts[1..])
  }
}

module ANFEval {
  import opened Base
  import opened LiftedEval
  import opened ANFSyntax

  datatype AProg = AProg(defs: map<Name, ADef>, prim: Prims)

  type Env = map<int, Val>

  function Look(env: Env, v: AVar): Outcome<Val> {
    match v
    case ALocal(i) => if i in env then Value(env[i]) else Stuck
    case AErasedVar => Value(VErased)
  }

  function LookAll(env: Env, vs: seq<AVar>): (r: Outcome<seq<Val>>)
    ensures r.Value? ==> |r.v| == |vs|
  {
    if vs == [] then Value([])
    else
      var v :- Look(env, vs[0]);
      var rest :- LookAll(env, vs[1..]);
      Value([v] + rest)
  }

  function BindAll(env: Env, xs: seq<int>, vs: seq<Val>): Env
    requires |xs| == |vs|
    decreases |xs|
  {
    if xs == [] then env else BindAll(env[xs[0] := vs[0]], xs[1..], vs[1..])
  }

  function AAltKeys(alts: seq<AConAlt>): (ks: seq<ConKey>)
    ensures |ks| == |alts|
  {
    seq(|alts|, i requires 0 <= i < |alts| => KeyOf(alts[i].con, alts[i].tag))
  }

  function AAltConsts(alts: seq<AConstAlt>): (cs: seq<Constant>)
    ensures |cs| == |alts|
  {
    seq(|alts|, i requires 0 <= i < |alts| => alts[i].c)
  }

  ghost function AEval(p: AProg, fuel: nat, env: Env, a: ANF): Outcome<Val>
    decreases fuel, 1, a
  {
    match a
    case AV(v) => Look(env, v)
    case AAppName(n, args) =>
      var vs :- LookAll(env, args);
      ACall(p, fuel, n, vs)
    case AUnderApp(n, m, args) =>
      var vs :- LookAll(env, args);
      Value(VPap(n, m, vs))
    case AApp(c, x) =>
      var g :- Look(env, c);
      var v :- Look(env, x);
      AApply(p, fuel, g, v)
    case ALet(x, e, b) =>
      var v :- AEval(p, fuel, env, e);
      AEval(p, fuel, env[x := v], b)
    case ACon(n, t, args) =>
      var vs :- LookAll(env, args);
      Value(VCon(KeyOf(n, t), vs))
    case AOp(op, args) =>
      var vs :- LookAll(env, args);
      p.prim(OpKey(op), vs)
    case AExtPrim(n, args) =>
      var vs :- LookAll(env, args);
      p.prim(ExtKey(n), vs)
    case AConCase(s, alts, d) =>
      var v :- Look(env, s);
      var pick := PickKey(AAltKeys(alts), v);
      if pick.Some? then
        var alt := alts[pick.value];
        if |alt.args| == |v.args| then AEval(p, fuel, BindAll(env, alt.args, v.args), alt.body) else Stuck
      else if d.Some? then AEval(p, fuel, env, d.value) else Stuck
    case AConstCase(s, alts, d) =>
      var v :- Look(env, s);
      var pick := PickVal(AAltConsts(alts), v);
      if pick.Some? then AEval(p, fuel, env, alts[pick.value].body)
      else if d.Some? then AEval(p, fuel, env, d.value) else Stuck
    case APrimVal(c) => Value(VConst(c))
    case AErased => Value(VErased)
    case ACrash(m) => Crash(m)
  }

  ghost function AApply(p: AProg, fuel: nat, g: Val, v: Val): Outcome<Val>
    decreases fuel, 0, 1
  {
    if !g.VPap? || g.missing == 0 then Stuck
    else if fuel == 0 then Timeout
    else if g.missing == 1 then ACall(p, fuel, g.n, g.args + [v])
    else Value(VPap(g.n, g.missing - 1, g.args + [v]))
  }

  ghost function ACall(p: AProg, fuel: nat, n: Name, vs: seq<Val>): Outcome<Val>
    decreases fuel, 0, 0
  {
    if n !in p.defs then Stuck
    else match p.defs[n]
      case MkAFun(args, body) =>
        if |vs| != |args| then Stuck
        else if fuel == 0 then Timeout
        else AEval(p, fuel - 1, BindAll(map[], args, vs), body)
      case MkACon(_, _) => Stuck
      case MkAForeign(arity) => if |vs| == arity then p.prim(ForeignKey(n), vs) else Stuck
      case MkAError(expl) => if fuel == 0 then Timeout else AEval(p, fuel - 1, map[], expl)
  }
}

/** The conversion from lifted code. The counter is threaded explicitly here;
    `ANFConverter` runs the same conversion over a mutable one. */
module ANFConvert {
  import opened Base
  import opened LiftedSyntax
  import opened ANFSyntax

  const CANT_HAPPEN_APP := "Can't happen (Administrative_Normal_Form_Closure_Application)"
  const CANT_HAPPEN_OP := "Can't happen (Administrative_Normal_Form_Primitive_Operation)"

  /** What is built from a list of arguments once each is a variable. */
  datatype Head =
    | HCall(n: Name)
    | HPap(n: Name, missing: nat)
    | HApp
    | HCon(con: Name, tag: Option<int>)
    | HOp(op: string, arity: nat)
    | HExt(p: Name)

  function Build(h: Head, vs: seq<AVar>): ANF {
    match h
    case HCall(n) => AAppName(n, vs)
    case HPap(n, m) => AUnderApp(n, m, vs)
    case HApp => if |vs| == 2 then AApp(vs[0], vs[1]) else ACrash(CANT_HAPPEN_APP)
    case HCon(n, t) => ACon(n, t, vs)
    case HOp(op, arity) => if |vs| == arity then AOp(op, vs) else ACrash(CANT_HAPPEN_OP)
    case HExt(p) => AExtPrim(p, vs)
  }

  type Bound = (AVar, Option<ANF>)

  /** Give each argument that is not already a variable a new one. */
  function BindArgs(k: int, args: seq<ANF>): (r: (seq<Bound>, int))
    ensures |r.0| == |args| && r.1 >= k
    decreases |args|
  {
    if args == [] then ([], k)
    else if args[0].AV? then
      var t := BindArgs(k, args[1..]);
      ([(args[0].v, None)] + t.0, t.1)
    else if args[0].AErased? then
      var t := BindArgs(k, args[1..]);
      ([(AErasedVar, None)] + t.0, t.1)
    else
      var t := BindArgs(k + 1, args[1..]);
      ([(ALocal(k), Some(args[0]))] + t.0, t.1)
  }

  function DoBind(vs: seq<AVar>, bs: seq<Bound>, h: Head): ANF
    decreases |bs|
  {
    if bs == [] then Build(h, vs)
    else
      var (v, t) := bs[0];
      if v.ALocal? && t.Some? then ALet(v.i, t.value, DoBind(vs + [v], bs[1..], h))
      else DoBind(vs + [v], bs[1..], h)
  }

  function LetBind(k: int, args: seq<ANF>, h: Head): (r: (ANF, int))
    ensures r.1 >= k
  {
    var b := BindArgs(k, args);
    (DoBind([], b.0, h), b.1)
  }

  /** The next `n` variables. */
  function Fresh(k: int, n: nat): (r: seq<int>)
    ensures |r| == n && forall i :: 0 <= i < n ==> r[i] == k + i
  {
    seq(n, i => k + i)
  }

  /** Convert a term whose variables are numbered by `vs`, from counter `k`. */
  function Conv(vs: seq<int>, k: int, l: Lifted): (r: (ANF, int))
    requires LScoped(l, |vs|)
    ensures r.1 >= k
    decreases l, 1
  {
    match l
    case LLocal(i) => (AV(ALocal(vs[i])), k)
    case LAppName(n, args) => ConvArgs(vs, k, args, HCall(n))
    case LUnderApp(n, m, args) => ConvArgs(vs, k, args, HPap(n, m))
    case LApp(c, a) =>
      var f' := Conv(vs, k, c);
      var a' := Conv(vs, f'.1, a);
      LetBind(a'.1, [f'.0, a'.0], HApp)
    case LLet(_, e, b) =>
      var e' := Conv(vs, k + 1, e);
      var b' := Conv([k] + vs, e'.1, b);
      (ALet(k, e'.0, b'.0), b'.1)
    case LCon(n, t, args) => ConvArgs(vs, k, args, HCon(n, t))
    case LOp(op, arity, args) => ConvArgs(vs, k, args, HOp(op, arity))
    case LExtPrim(p, args) => ConvArgs(vs, k, args, HExt(p))
    case LConCase(s, alts, d) =>
      var s' := Conv(vs, k, s);
      var alts' := ConvConAlts(vs, s'.1, alts);
      var d' := ConvOpt(vs, alts'.1, d);
      if s'.0.AV? then (AConCase(s'.0.v, alts'.0, d'.0), d'.1)
      else (ALet(d'.1, s'.0, AConCase(ALocal(d'.1), alts'.0, d'.0)), d'.1 + 1)
    case LConstCase(s, alts, d) =>
      var s' := Conv(vs, k, s);
      var alts' := ConvConstAlts(vs, s'.1, alts);
      var d' := ConvOpt(vs, alts'.1, d);
      if s'.0.AV? then (AConstCase(s'.0.v, alts'.0, d'.0), d'.1)
      else (ALet(d'.1, s'.0, AConstCase(ALocal(d'.1), alts'.0, d'.0)), d'.1 + 1)
    case LPrimVal(c) => (APrimVal(c), k)
    case LErased => (AErased, k)
    case LCrash(m) => (ACrash(m), k)
  }

  function ConvArgs(vs: seq<int>, k: int, args: seq<Lifted>, h: Head): (r: (ANF, int))
    requires forall i :: 0 <= i < |args| ==> LScoped(args[i], |vs|)
    ensures r.1 >= k
    decreases args, 1
  {
    var as' := ConvList(vs, k, args);
    LetBind(as'.1, as'.0, h)
  }

  function ConvList(vs: seq<int>, k: int, ls: seq<Lifted>): (r: (seq<ANF>, int))
    requires forall i :: 0 <= i < |ls| ==> LScoped(ls[i], |vs|)
    ensures |r.0| == |ls| && r.1 >= k
    decreases ls, 0
  {
    if ls == [] then ([], k)
    else
      var h := Conv(vs, k, ls[0]);
      var t := ConvList(vs, h.1, ls[1..]);
      ([h.0] + t.0, t.1)
  }

  function ConvConAlts(vs: seq<int>, k: int, alts: seq<LiftedConAlt>): (r: (seq<AConAlt>, int))
    requires forall i :: 0 <= i < |alts| ==> LScoped(alts[i].body, |alts[i].args| + |vs|)
    ensures |r.0| == |alts| && r.1 >= k
    decreases alts, 0
  {
    if alts == [] then ([], k)
    else
      var a := alts[0];
      assert (alts decreases to alts[0]);
      var xs := Fresh(k, |a.args|);
      var h := Conv(xs + vs, k + |a.args|, a.body);
      var t := ConvConAlts(vs, h.1, alts[1..]);
      ([MkAConAlt(a.con, a.tag, xs, h.0)] + t.0, t.1)
  }

  function ConvConstAlts(vs: seq<int>, k: int, alts: seq<LiftedConstAlt>): (r: (seq<AConstAlt>, int))
    requires forall i :: 0 <= i < |alts| ==> LScoped(alts[i].body, |vs|)
    ensures |r.0| == |alts| && r.1 >= k
    decreases alts, 0
  {
    if alts == [] then ([], k)
    else
      assert (alts decreases to alts[0]);
      var h := Conv(vs, k, alts[0].body);
      var t := ConvConstAlts(vs, h.1, alts[1..]);
      ([MkAConstAlt(alts[0].c, h.0)] + t.0, t.1)
  }

  function ConvOpt(vs: seq<int>, k: int, d: Option<Lifted>): (r: (Option<ANF>, int))
    requires d.Some? ==> LScoped(d.value, |vs|)
    ensures (r.0.Some? <==> d.Some?) && r.1 >= k
    decreases d, 0
  {
    if d.None? then (None, k)
    else
      var h := Conv(vs, k, d.value);
      (Some(h.0), h.1)
  }

  /** `to_administrative_normal_form`: the arguments, then the scope reversed. */
  function ToANF(d: LiftedDef): ADef
    requires LScopedDef(d)
  {
    match d
    case MkLFun(args, scope, body) =>
      var iargs := Fresh(0, |args|);
      var iscope := Fresh(|args|, |scope|);
      MkAFun(iargs + Reverse(iscope), Conv(iscope + iargs, |args| + |scope|, body).0)
    case MkLCon(t, a) => MkACon(t, a)
    case MkLForeign(a) => MkAForeign(a)
    case MkLError(expl) => MkAError(Conv([], 0, expl).0)
  }
}

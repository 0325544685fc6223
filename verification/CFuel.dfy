/** More fuel never changes an outcome that was reached. */
module CExpFuel {
  import opened Base
  import opened CExpSyntax
  import opened CExpEval

  lemma {:induction false} EvalMore(p: CProg, fuel: nat, env: seq<CVal>, e: CExp)
    requires Eval(p, fuel, env, e) != Timeout
    ensures Eval(p, fuel + 1, env, e) == Eval(p, fuel, env, e)
    decreases fuel, 1, e
  {
    match e
    case CLocal(_) =>
    case CRef(n) => CallMore(p, fuel, n, []);
    case CLam(_, _) =>
    case CLet(_, _, v, s) =>
      EvalMore(p, fuel, env, v);
      var o := Eval(p, fuel, env, v);
      if o.Value? { EvalMore(p, fuel, [o.v] + env, s); }
    case CApp(f, args) =>
      if f.CRef? {
        ListMore(p, fuel, env, args);
        var o := EvalList(p, fuel, env, args);
        if o.Value? { CallMore(p, fuel, f.n, o.v); }
      } else {
        EvalMore(p, fuel, env, f);
        var o := Eval(p, fuel, env, f);
        if o.Value? { AppsMore(p, fuel, env, o.v, args); }
      }
    case CCon(_, _, args) => ListMore(p, fuel, env, args);
    case COp(_, _, args) => ListMore(p, fuel, env, args);
    case CExtPrim(_, args) => ListMore(p, fuel, env, args);
    case CForce(_, t) =>
      EvalMore(p, fuel, env, t);
      var o := Eval(p, fuel, env, t);
      if o.Value? { ForceMore(p, fuel, o.v); }
    case CDelay(_, _) =>
    case CConCase(s, alts, d) =>
      EvalMore(p, fuel, env, s);
      var o := Eval(p, fuel, env, s);
      if o.Value? {
        var pick := PickCon(alts, o.v);
        if pick.Some? {
          assert (alts decreases to alts[pick.value]);
          if |alts[pick.value].args| == |o.v.args| { EvalMore(p, fuel, o.v.args + env, alts[pick.value].body); }
        } else if d.Some? {
          EvalMore(p, fuel, env, d.value);
        }
      }
    case CConstCase(s, alts, d) =>
      EvalMore(p, fuel, env, s);
      var o := Eval(p, fuel, env, s);
      if o.Value? {
        var pick := PickConst(alts, o.v);
        if pick.Some? {
          assert (alts decreases to alts[pick.value]);
          EvalMore(p, fuel, env, alts[pick.value].body);
        } else if d.Some? {
          EvalMore(p, fuel, env, d.value);
        }
      }
    case CPrimVal(_) =>
    case CErased =>
    case CCrash(_) =>
  }

  lemma {:induction false} ListMore(p: CProg, fuel: nat, env: seq<CVal>, es: seq<CExp>)
    requires EvalList(p, fuel, env, es) != Timeout
    ensures EvalList(p, fuel + 1, env, es) == EvalList(p, fuel, env, es)
    decreases fuel, 1, es
  {
    if es != [] {
      EvalMore(p, fuel, env, es[0]);
      if Eval(p, fuel, env, es[0]).Value? { ListMore(p, fuel, env, es[1..]); }
    }
  }

  lemma {:induction false} AppsMore(p: CProg, fuel: nat, env: seq<CVal>, g: CVal, es: seq<CExp>)
    requires EvalApps(p, fuel, env, g, es) != Timeout
    ensures EvalApps(p, fuel + 1, env, g, es) == EvalApps(p, fuel, env, g, es)
    decreases fuel, 1, es
  {
    if es != [] {
      EvalMore(p, fuel, env, es[0]);
      var o := Eval(p, fuel, env, es[0]);
      if o.Value? {
        ApplyMore(p, fuel, g, o.v);
        var h := Apply(p, fuel, g, o.v);
        if h.Value? { AppsMore(p, fuel, env, h.v, es[1..]); }
      }
    }
  }

  lemma {:induction false} ApplyMore(p: CProg, fuel: nat, g: CVal, v: CVal)
    requires Apply(p, fuel, g, v) != Timeout
    ensures Apply(p, fuel + 1, g, v) == Apply(p, fuel, g, v)
    decreases fuel, 0
  {
    if g.CVClo? { EvalMore(p, fuel - 1, [v] + g.env, g.body); }
  }

  lemma {:induction false} ForceMore(p: CProg, fuel: nat, v: CVal)
    requires Force(p, fuel, v) != Timeout
    ensures Force(p, fuel + 1, v) == Force(p, fuel, v)
    decreases fuel, 0
  {
    if v.CVThunk? { EvalMore(p, fuel - 1, v.env, v.body); }
  }

  lemma {:induction false} CallMore(p: CProg, fuel: nat, n: Name, vs: seq<CVal>)
    requires Call(p, fuel, n, vs) != Timeout
    ensures Call(p, fuel + 1, n, vs) == Call(p, fuel, n, vs)
    decreases fuel, 0
  {
    if n in p.defs {
      match p.defs[n]
      case MkFun(args, b) => if |vs| == |args| { EvalMore(p, fuel - 1, vs, b); }
      case MkError(b) => EvalMore(p, fuel - 1, [], b);
      case _ =>
    }
  }

  /** Any two amounts of fuel that suffice give the same outcome. */
  lemma {:induction false} EvalAgree(p: CProg, fuel: nat, more: nat, env: seq<CVal>, e: CExp)
    requires fuel <= more && Eval(p, fuel, env, e) != Timeout
    ensures Eval(p, more, env, e) == Eval(p, fuel, env, e)
    decreases more - fuel
  {
    if fuel < more {
      EvalMore(p, fuel, env, e);
      EvalAgree(p, fuel + 1, more, env, e);
    }
  }

  lemma {:induction false} ListAgree(p: CProg, fuel: nat, more: nat, env: seq<CVal>, es: seq<CExp>)
    requires fuel <= more && EvalList(p, fuel, env, es) != Timeout
    ensures EvalList(p, more, env, es) == EvalList(p, fuel, env, es)
    decreases more - fuel
  {
    if fuel < more {
      ListMore(p, fuel, env, es);
      ListAgree(p, fuel + 1, more, env, es);
    }
  }

  lemma {:induction false} CallAgree(p: CProg, fuel: nat, more: nat, n: Name, vs: seq<CVal>)
    requires fuel <= more && Call(p, fuel, n, vs) != Timeout
    ensures Call(p, more, n, vs) == Call(p, fuel, n, vs)
    decreases more - fuel
  {
    if fuel < more {
      CallMore(p, fuel, n, vs);
      CallAgree(p, fuel + 1, more, n, vs);
    }
  }

  lemma {:induction false} ApplyAgree(p: CProg, fuel: nat, more: nat, g: CVal, v: CVal)
    requires fuel <= more && Apply(p, fuel, g, v) != Timeout
    ensures Apply(p, more, g, v) == Apply(p, fuel, g, v)
    decreases more - fuel
  {
    if fuel < more {
      ApplyMore(p, fuel, g, v);
      ApplyAgree(p, fuel + 1, more, g, v);
    }
  }

  lemma {:induction false} ForceAgree(p: CProg, fuel: nat, more: nat, v: CVal)
    requires fuel <= more && Force(p, fuel, v) != Timeout
    ensures Force(p, more, v) == Force(p, fuel, v)
    decreases more - fuel
  {
    if fuel < more {
      ForceMore(p, fuel, v);
      ForceAgree(p, fuel + 1, more, v);
    }
  }
}

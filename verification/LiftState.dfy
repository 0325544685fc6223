/** Lambda lifting as the source performs it, with the new definitions and the
    next name index kept in a mutable record (`Ref Lifts LDefs`). Each method is
    proved to compute what the functions of `LambdaLift` specify. */
module LambdaLifter {
  import opened Base
  import opened CExpSyntax
  import opened LiftedSyntax
  import Spec = LambdaLift

  class LDefs {
    const basename: Name
    var defs: Spec.Defs
    var nextName: int

    constructor (n: Name)
      ensures basename == n && defs == [] && nextName == 0
    {
      basename := n;
      defs := [];
      nextName := 0;
    }

    /** The new state is the old one extended by what `r` made. */
    twostate predicate Grew<T>(new r: Spec.Res<T>)
      reads this
    {
      defs == r.defs + old(defs) && nextName == r.next
    }

    method GenName() returns (n: Name)
      modifies this
      ensures n == Spec.MkName(basename, old(nextName))
      ensures nextName == old(nextName) + 1 && defs == old(defs)
    {
      var i := nextName;
      nextName := i + 1;
      n := Spec.MkName(basename, i);
    }

    method MakeLam(vars: Scope, bound: Scope, e: CExp) returns (l: Lifted)
      requires Scoped(e, |bound| + |vars|)
      modifies this
      ensures l == Spec.MakeLam(basename, vars, bound, old(nextName), e).out
      ensures Grew(Spec.MakeLam(basename, vars, bound, old(nextName), e))
      decreases Spec.Size(e), 1
    {
      hide Spec.LiftExp, Spec.UnusedIn, Spec.DropUnused, Spec.Dropped, Spec.AllVars, Spec.MkName;
      if e.CLam? {
        l := MakeLam(vars, [e.x] + bound, e.body);
      } else {
        var scl := LiftExp(bound + vars, e);
        var unused := Spec.UnusedIn(|bound|, |vars|, scl);
        var scl' := Spec.DropUnused(|bound|, unused, scl);
        var n := GenName();
        defs := [(n, MkLFun(Spec.Dropped(vars, unused), bound, scl'))] + defs;
        l := LUnderApp(n, |bound|, Spec.AllVars(0, vars, unused));
      }
    }

    method LiftExp(vars: Scope, e: CExp) returns (l: Lifted)
      requires Scoped(e, |vars|)
      modifies this
      ensures l == Spec.LiftExp(basename, vars, old(nextName), e).out
      ensures Grew(Spec.LiftExp(basename, vars, old(nextName), e))
      decreases Spec.Size(e), 0
    {
      match e
      case CLocal(i) => l := LLocal(i);
      case CRef(n) => l := LAppName(n, []);
      case CLam(x, sc) => l := MakeLam(vars, [x], sc);
      case CLet(x, _, v, sc) => l := LiftLet(vars, x, v, sc);
      case CApp(f, args) => l := LiftApp(vars, f, args);
      case CCon(n, t, args) =>
        var as' := LiftList(vars, args);
        l := LCon(n, t, as');
      case COp(op, arity, args) =>
        var as' := LiftList(vars, args);
        l := LOp(op, arity, as');
      case CExtPrim(p, args) =>
        var as' := LiftList(vars, args);
        l := LExtPrim(p, as');
      case CForce(_, t) => l := LiftApp(vars, t, [CErased]);
      case CDelay(_, t) =>
        Spec.WeakenScopedSize(t, |vars|);
        l := MakeLam(vars, [MN("act", 0)], Weaken(1, t));
      case CConCase(s, alts, d) => l := LiftConCase(vars, s, alts, d);
      case CConstCase(s, alts, d) => l := LiftConstCase(vars, s, alts, d);
      case CPrimVal(c) => l := LPrimVal(c);
      case CErased => l := LErased;
      case CCrash(m) => l := LCrash(m);
    }

    method LiftLet(vars: Scope, x: Name, v: CExp, sc: CExp) returns (l: Lifted)
      requires Scoped(v, |vars|) && Scoped(sc, |vars| + 1)
      modifies this
      ensures l == Spec.LiftLet(basename, vars, old(nextName), x, v, sc).out
      ensures Grew(Spec.LiftLet(basename, vars, old(nextName), x, v, sc))
      decreases Spec.Size(v) + Spec.Size(sc), 1
    {
      hide Spec.LiftExp;
      var v' := LiftExp(vars, v);
      var sc' := LiftExp([x] + vars, sc);
      l := LLet(x, v', sc');
    }

    method LiftApp(vars: Scope, f: CExp, args: seq<CExp>) returns (l: Lifted)
      requires Scoped(f, |vars|) && forall i :: 0 <= i < |args| ==> Scoped(args[i], |vars|)
      modifies this
      ensures l == Spec.LiftApp(basename, vars, old(nextName), f, args).out
      ensures Grew(Spec.LiftApp(basename, vars, old(nextName), f, args))
      decreases Spec.Size(f) + Spec.SizeList(args), 1
    {
      hide Spec.LiftExp, Spec.LiftList;
      if f.CRef? {
        var as' := LiftList(vars, args);
        l := LAppName(f.n, as');
      } else {
        var f' := LiftExp(vars, f);
        var as' := LiftList(vars, args);
        l := Spec.Unload(f', as');
      }
    }

    method LiftConCase(vars: Scope, s: CExp, alts: seq<CConAlt>, d: Option<CExp>) returns (l: Lifted)
      requires Scoped(s, |vars|) && (d.Some? ==> Scoped(d.value, |vars|))
      requires forall i :: 0 <= i < |alts| ==> Scoped(alts[i].body, |alts[i].args| + |vars|)
      modifies this
      ensures l == Spec.LiftConCase(basename, vars, old(nextName), s, alts, d).out
      ensures Grew(Spec.LiftConCase(basename, vars, old(nextName), s, alts, d))
      decreases Spec.Size(s) + Spec.SizeConAlts(alts) + (if d.Some? then Spec.Size(d.value) else 0), 2
    {
      hide Scoped, Spec.LiftExp, Spec.LiftConAlts, Spec.LiftConstAlts, Spec.LiftOpt, Spec.Size, Spec.SizeConAlts, Spec.SizeConstAlts;
      ghost var rs := Spec.LiftExp(basename, vars, nextName, s);
      ghost var ra := Spec.LiftConAlts(basename, vars, rs.next, alts);
      ghost var rd := Spec.LiftOpt(basename, vars, ra.next, d);
      var s' := LiftExp(vars, s);
      var alts' := LiftConAlts(vars, alts);
      var d' := LiftOpt(vars, d);
      Regroup(rd.defs, ra.defs, rs.defs, old(defs));
      l := LConCase(s', alts', d');
    }

    method LiftConstCase(vars: Scope, s: CExp, alts: seq<CConstAlt>, d: Option<CExp>) returns (l: Lifted)
      requires Scoped(s, |vars|) && (d.Some? ==> Scoped(d.value, |vars|))
      requires forall i :: 0 <= i < |alts| ==> Scoped(alts[i].body, |vars|)
      modifies this
      ensures l == Spec.LiftConstCase(basename, vars, old(nextName), s, alts, d).out
      ensures Grew(Spec.LiftConstCase(basename, vars, old(nextName), s, alts, d))
      decreases Spec.Size(s) + Spec.SizeConstAlts(alts) + (if d.Some? then Spec.Size(d.value) else 0), 2
    {
      hide Scoped, Spec.LiftExp, Spec.LiftConAlts, Spec.LiftConstAlts, Spec.LiftOpt, Spec.Size, Spec.SizeConAlts, Spec.SizeConstAlts;
      ghost var rs := Spec.LiftExp(basename, vars, nextName, s);
      ghost var ra := Spec.LiftConstAlts(basename, vars, rs.next, alts);
      ghost var rd := Spec.LiftOpt(basename, vars, ra.next, d);
      var s' := LiftExp(vars, s);
      var alts' := LiftConstAlts(vars, alts);
      var d' := LiftOpt(vars, d);
      Regroup(rd.defs, ra.defs, rs.defs, old(defs));
      l := LConstCase(s', alts', d');
    }

    method LiftList(vars: Scope, es: seq<CExp>) returns (ls: seq<Lifted>)
      requires forall i :: 0 <= i < |es| ==> Scoped(es[i], |vars|)
      modifies this
      ensures ls == Spec.LiftList(basename, vars, old(nextName), es).out
      ensures Grew(Spec.LiftList(basename, vars, old(nextName), es))
      decreases Spec.SizeList(es), 0
    {
      hide Spec.LiftExp;
      if es == [] {
        ls := [];
      } else {
        var h := LiftExp(vars, es[0]);
        var t := LiftList(vars, es[1..]);
        ls := [h] + t;
      }
    }

    method LiftConAlts(vars: Scope, alts: seq<CConAlt>) returns (ls: seq<LiftedConAlt>)
      requires forall i :: 0 <= i < |alts| ==> Scoped(alts[i].body, |alts[i].args| + |vars|)
      modifies this
      ensures ls == Spec.LiftConAlts(basename, vars, old(nextName), alts).out
      ensures Grew(Spec.LiftConAlts(basename, vars, old(nextName), alts))
      decreases Spec.SizeConAlts(alts), 0
    {
      hide Spec.LiftExp;
      if alts == [] {
        ls := [];
      } else {
        var a := alts[0];
        var h := LiftExp(a.args + vars, a.body);
        var t := LiftConAlts(vars, alts[1..]);
        ls := [MkLConAlt(a.con, a.tag, a.args, h)] + t;
      }
    }

    method LiftConstAlts(vars: Scope, alts: seq<CConstAlt>) returns (ls: seq<LiftedConstAlt>)
      requires forall i :: 0 <= i < |alts| ==> Scoped(alts[i].body, |vars|)
      modifies this
      ensures ls == Spec.LiftConstAlts(basename, vars, old(nextName), alts).out
      ensures Grew(Spec.LiftConstAlts(basename, vars, old(nextName), alts))
      decreases Spec.SizeConstAlts(alts), 0
    {
      hide Spec.LiftExp;
      if alts == [] {
        ls := [];
      } else {
        var h := LiftExp(vars, alts[0].body);
        var t := LiftConstAlts(vars, alts[1..]);
        ls := [MkLConstAlt(alts[0].c, h)] + t;
      }
    }

    method LiftOpt(vars: Scope, d: Option<CExp>) returns (l: Option<Lifted>)
      requires d.Some? ==> Scoped(d.value, |vars|)
      modifies this
      ensures l == Spec.LiftOpt(basename, vars, old(nextName), d).out
      ensures Grew(Spec.LiftOpt(basename, vars, old(nextName), d))
      decreases if d.Some? then Spec.Size(d.value) else 0, 1
    {
      if d.None? {
        l := None;
      } else {
        var h := LiftExp(vars, d.value);
        l := Some(h);
      }
    }
  }

  lemma Regroup(a: Spec.Defs, b: Spec.Defs, c: Spec.Defs, d: Spec.Defs)
    ensures a + (b + (c + d)) == (a + b + c) + d
  {
  }

  /** Lift one top-level definition, starting from an empty record. */
  method LambdaLiftDef(n: Name, d: CDef) returns (r: Spec.Defs)
    requires Spec.ScopedDef(d)
    ensures r == Spec.LambdaLiftDef(n, d)
  {
    match d
    case MkFun(args, body) =>
      var st := new LDefs(n);
      var l := st.LiftExp(args, body);
      r := [(n, MkLFun(args, [], l))] + st.defs;
    case MkCon(t, a) => r := [(n, MkLCon(t, a))];
    case MkForeign(a) => r := [(n, MkLForeign(a))];
    case MkError(expl) =>
      var st := new LDefs(n);
      var l := st.LiftExp([], expl);
      r := [(n, MkLError(l))] + st.defs;
  }
}

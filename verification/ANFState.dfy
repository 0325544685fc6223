/** The conversion as the source performs it, stepping a mutable counter
    (`Ref Next Int`); each method computes what `ANFConvert` specifies. */
module ANFConverter {
  import opened Base
  import opened LiftedSyntax
  import opened ANFSyntax
  import Spec = ANFConvert

  class Counter {
    var next: int

    constructor ()
      ensures next == 0
    {
      next := 0;
    }

    method NextVar() returns (i: int)
      modifies this
      ensures i == old(next) && next == old(next) + 1
    {
      i := next;
      next := i + 1;
    }

    /** Number the names of a binder, first to last. */
    method BindNames(n: nat) returns (xs: seq<int>)
      modifies this
      ensures xs == Spec.Fresh(old(next), n) && next == old(next) + n
    {
      if n == 0 {
        xs := [];
      } else {
        var i := NextVar();
        var rest := BindNames(n - 1);
        xs := [i] + rest;
      }
    }

    method BindArgs(args: seq<ANF>) returns (bs: seq<Spec.Bound>)
      modifies this
      ensures (bs, next) == Spec.BindArgs(old(next), args)
      decreases |args|
    {
      if args == [] {
        bs := [];
      } else if args[0].AV? {
        var t := BindArgs(args[1..]);
        bs := [(args[0].v, None)] + t;
      } else if args[0].AErased? {
        var t := BindArgs(args[1..]);
        bs := [(AErasedVar, None)] + t;
      } else {
        var i := NextVar();
        var t := BindArgs(args[1..]);
        bs := [(ALocal(i), Some(args[0]))] + t;
      }
    }

    method LetBind(args: seq<ANF>, h: Spec.Head) returns (a: ANF)
      modifies this
      ensures (a, next) == Spec.LetBind(old(next), args, h)
    {
      var bs := BindArgs(args);
      a := Spec.DoBind([], bs, h);
    }

    method Convert(vs: seq<int>, l: Lifted) returns (a: ANF)
      requires LScoped(l, |vs|)
      modifies this
      ensures (a, next) == Spec.Conv(vs, old(next), l)
      decreases l, 1
    {
      match l
      case LLocal(i) => a := AV(ALocal(vs[i]));
      case LAppName(n, args) => a := ConvertArgs(vs, args, Spec.HCall(n));
      case LUnderApp(n, m, args) => a := ConvertArgs(vs, args, Spec.HPap(n, m));
      case LApp(c, x) =>
        var f' := Convert(vs, c);
        var a' := Convert(vs, x);
        a := LetBind([f', a'], Spec.HApp);
      case LLet(_, e, b) =>
        var i := NextVar();
        var e' := Convert(vs, e);
        var b' := Convert([i] + vs, b);
        a := ALet(i, e', b');
      case LCon(n, t, args) => a := ConvertArgs(vs, args, Spec.HCon(n, t));
      case LOp(op, arity, args) => a := ConvertArgs(vs, args, Spec.HOp(op, arity));
      case LExtPrim(p, args) => a := ConvertArgs(vs, args, Spec.HExt(p));
      case LConCase(s, alts, d) =>
        var s' := Convert(vs, s);
        var alts' := ConvertConAlts(vs, alts);
        var d' := ConvertOpt(vs, d);
        if s'.AV? {
          a := AConCase(s'.v, alts', d');
        } else {
          var i := NextVar();
          a := ALet(i, s', AConCase(ALocal(i), alts', d'));
        }
      case LConstCase(s, alts, d) =>
        var s' := Convert(vs, s);
        var alts' := ConvertConstAlts(vs, alts);
        var d' := ConvertOpt(vs, d);
        if s'.AV? {
          a := AConstCase(s'.v, alts', d');
        } else {
          var i := NextVar();
          a := ALet(i, s', AConstCase(ALocal(i), alts', d'));
        }
      case LPrimVal(c) => a := APrimVal(c);
      case LErased => a := AErased;
      case LCrash(m) => a := ACrash(m);
    }

    method ConvertArgs(vs: seq<int>, args: seq<Lifted>, h: Spec.Head) returns (a: ANF)
      requires forall i :: 0 <= i < |args| ==> LScoped(args[i], |vs|)
      modifies this
      ensures (a, next) == Spec.ConvArgs(vs, old(next), args, h)
      decreases args, 1
    {
      var as' := ConvertList(vs, args);
      a := LetBind(as', h);
    }

    method ConvertList(vs: seq<int>, ls: seq<Lifted>) returns (r: seq<ANF>)
      requires forall i :: 0 <= i < |ls| ==> LScoped(ls[i], |vs|)
      modifies this
      ensures (r, next) == Spec.ConvList(vs, old(next), ls)
      decreases ls, 0
    {
      if ls == [] {
        r := [];
      } else {
        var h := Convert(vs, ls[0]);
        var t := ConvertList(vs, ls[1..]);
        r := [h] + t;
      }
    }

    method ConvertConAlts(vs: seq<int>, alts: seq<LiftedConAlt>) returns (r: seq<AConAlt>)
      requires forall i :: 0 <= i < |alts| ==> LScoped(alts[i].body, |alts[i].args| + |vs|)
      modifies this
      ensures (r, next) == Spec.ConvConAlts(vs, old(next), alts)
      decreases alts, 0
    {
      if alts == [] {
        r := [];
      } else {
        var a := alts[0];
        assert (alts decreases to alts[0]);
        var xs := BindNames(|a.args|);
        var h := Convert(xs + vs, a.body);
        var t := ConvertConAlts(vs, alts[1..]);
        r := [MkAConAlt(a.con, a.tag, xs, h)] + t;
      }
    }

    method ConvertConstAlts(vs: seq<int>, alts: seq<LiftedConstAlt>) returns (r: seq<AConstAlt>)
      requires forall i :: 0 <= i < |alts| ==> LScoped(alts[i].body, |vs|)
      modifies this
      ensures (r, next) == Spec.ConvConstAlts(vs, old(next), alts)
      decreases alts, 0
    {
      if alts == [] {
        r := [];
      } else {
        assert (alts decreases to alts[0]);
        var h := Convert(vs, alts[0].body);
        var t := ConvertConstAlts(vs, alts[1..]);
        r := [MkAConstAlt(alts[0].c, h)] + t;
      }
    }

    method ConvertOpt(vs: seq<int>, d: Option<Lifted>) returns (r: Option<ANF>)
      requires d.Some? ==> LScoped(d.value, |vs|)
      modifies this
      ensures (r, next) == Spec.ConvOpt(vs, old(next), d)
      decreases d, 0
    {
      if d.None? {
        r := None;
      } else {
        var h := Convert(vs, d.value);
        r := Some(h);
      }
    }
  }

  /** Convert one definition, starting from a fresh counter. */
  method ToANF(d: LiftedDef) returns (r: ADef)
    requires LScopedDef(d)
    ensures r == Spec.ToANF(d)
  {
    match d
    case MkLFun(args, scope, body) =>
      var c := new Counter();
      var iargs := c.BindNames(|args|);
      var iscope := c.BindNames(|scope|);
      var b := c.Convert(iscope + iargs, body);
      r := MkAFun(iargs + Reverse(iscope), b);
    case MkLCon(t, a) => r := MkACon(t, a);
    case MkLForeign(a) => r := MkAForeign(a);
    case MkLError(expl) =>
      var c := new Counter();
      var b := c.Convert([], expl);
      r := MkAError(b);
  }
}

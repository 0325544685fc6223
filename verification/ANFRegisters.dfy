/** How many registers a conversion uses (Compiler/ANF.idr): one for each let, each field
    a branch binds, and each argument or scrutinee that is not a variable already. */
module ANFRegisters {
  import opened Base
  import opened LiftedSyntax
  import opened ANFSyntax
  import opened ANFConvert

  /** Registers that `l` needs, given no more than its syntax. */
  function Registers(l: Lifted): nat
    decreases l, 0
  {
    match l
    case LAppName(_, args) => ForArgs(args)
    case LUnderApp(_, _, args) => ForArgs(args)
    case LApp(c, a) => ForArg(c) + ForArg(a)
    case LLet(_, v, b) => 1 + Registers(v) + Registers(b)
    case LCon(_, _, args) => ForArgs(args)
    case LOp(_, _, args) => ForArgs(args)
    case LExtPrim(_, args) => ForArgs(args)
    case LConCase(s, alts, d) => ForScrutinee(s) + ForConAlts(alts) + (if d.Some? then Registers(d.value) else 0)
    case LConstCase(s, alts, d) => ForScrutinee(s) + ForConstAlts(alts) + (if d.Some? then Registers(d.value) else 0)
    case _ => 0
  }

  /** A variable or an erased argument is passed as it is. */
  function ForArg(a: Lifted): nat
    decreases a, 1
  {
    Registers(a) + if a.LLocal? || a.LErased? then 0 else 1
  }

  function ForScrutinee(s: Lifted): nat
    decreases s, 1
  {
    Registers(s) + if s.LLocal? then 0 else 1
  }

  function ForArgs(args: seq<Lifted>): nat
    decreases args, 0
  {
    if args == [] then 0 else ForArg(args[0]) + ForArgs(args[1..])
  }

  function ForConAlts(alts: seq<LiftedConAlt>): nat
    decreases alts, 0
  {
    if alts == [] then 0
    else
      assert (alts decreases to alts[0]);
      |alts[0].args| + Registers(alts[0].body) + ForConAlts(alts[1..])
  }

  function ForConstAlts(alts: seq<LiftedConstAlt>): nat
    decreases alts, 0
  {
    if alts == [] then 0
    else
      assert (alts decreases to alts[0]);
      Registers(alts[0].body) + ForConstAlts(alts[1..])
  }

  /** How often a converted term binds a variable. */
  function Bindings(a: ANF): nat
    decreases a, 0
  {
    match a
    case ALet(_, v, b) => 1 + Bindings(v) + Bindings(b)
    case AConCase(_, alts, d) => InConAlts(alts) + (if d.Some? then Bindings(d.value) else 0)
    case AConstCase(_, alts, d) => InConstAlts(alts) + (if d.Some? then Bindings(d.value) else 0)
    case _ => 0
  }

  function InConAlts(alts: seq<AConAlt>): nat
    decreases alts, 0
  {
    if alts == [] then 0
    else
      assert (alts decreases to alts[0]);
      |alts[0].args| + Bindings(alts[0].body) + InConAlts(alts[1..])
  }

  function InConstAlts(alts: seq<AConstAlt>): nat
    decreases alts, 0
  {
    if alts == [] then 0
    else
      assert (alts decreases to alts[0]);
      Bindings(alts[0].body) + InConstAlts(alts[1..])
  }

  function InAll(xs: seq<ANF>): nat { if xs == [] then 0 else Bindings(xs[0]) + InAll(xs[1..]) }

  function LetBound(xs: seq<ANF>): nat {
    if xs == [] then 0 else (if xs[0].AV? || xs[0].AErased? then 0 else 1) + LetBound(xs[1..])
  }

  lemma {:induction false} DoBindCounts(k: int, xs: seq<ANF>, acc: seq<AVar>, h: Head)
    ensures var b := BindArgs(k, xs);
            b.1 == k + LetBound(xs) && Bindings(DoBind(acc, b.0, h)) == LetBound(xs) + InAll(xs)
    decreases |xs|
  {
    var b := BindArgs(k, xs);
    if xs != [] {
      var x, rest := xs[0], xs[1..];
      if x.AV? {
        DoBindCounts(k, rest, acc + [x.v], h);
        assert b.0[1..] == BindArgs(k, rest).0 && Bindings(x) == 0;
      } else if x.AErased? {
        DoBindCounts(k, rest, acc + [AErasedVar], h);
        assert b.0[1..] == BindArgs(k, rest).0 && Bindings(x) == 0;
      } else {
        DoBindCounts(k + 1, rest, acc + [ALocal(k)], h);
        assert b.0[1..] == BindArgs(k + 1, rest).0;
      }
    }
  }

  lemma {:induction false} DoBindBuilds(vs: seq<AVar>, bs: seq<Bound>, h: Head)
    ensures !DoBind(vs, bs, h).AV? && !DoBind(vs, bs, h).AErased?
    decreases |bs|
  {
    if bs != [] { DoBindBuilds(vs + [bs[0].0], bs[1..], h); }
  }

  /** What a conversion does with the counter: from `k` to `r.1` it draws as many numbers
      as the syntax needs, and binds each of them. */
  ghost predicate Draws(k: int, need: nat, r: (ANF, int)) { r.1 == k + need && Bindings(r.0) == need }

  lemma LetBindDraws(k: int, mid: int, xs: seq<ANF>, h: Head)
    requires mid == k + InAll(xs)
    ensures Draws(k, InAll(xs) + LetBound(xs), LetBind(mid, xs, h))
    ensures !LetBind(mid, xs, h).0.AV? && !LetBind(mid, xs, h).0.AErased?
  {
    DoBindCounts(mid, xs, [], h);
    DoBindBuilds([], BindArgs(mid, xs).0, h);
  }

  lemma {:induction false} ListDraws(vs: seq<int>, k: int, ls: seq<Lifted>)
    requires forall i :: 0 <= i < |ls| ==> LScoped(ls[i], |vs|)
    ensures var r := ConvList(vs, k, ls); r.1 == k + InAll(r.0) && InAll(r.0) + LetBound(r.0) == ForArgs(ls)
    decreases ls, 0
  {
    if ls != [] {
      var h := Conv(vs, k, ls[0]);
      ConvDraws(vs, k, ls[0]);
      ListDraws(vs, h.1, ls[1..]);
      var r := ConvList(vs, k, ls).0;
      assert r[1..] == ConvList(vs, h.1, ls[1..]).0;
    }
  }

  lemma ArgsDraw(vs: seq<int>, k: int, ls: seq<Lifted>, h: Head)
    requires forall i :: 0 <= i < |ls| ==> LScoped(ls[i], |vs|)
    ensures var r := ConvArgs(vs, k, ls, h); Draws(k, ForArgs(ls), r) && !r.0.AV? && !r.0.AErased?
    decreases ls, 1
  {
    ListDraws(vs, k, ls);
    var as' := ConvList(vs, k, ls);
    LetBindDraws(k, as'.1, as'.0, h);
  }

  lemma {:induction false} ConAltsDraw(vs: seq<int>, k: int, alts: seq<LiftedConAlt>)
    requires forall i :: 0 <= i < |alts| ==> LScoped(alts[i].body, |alts[i].args| + |vs|)
    ensures var r := ConvConAlts(vs, k, alts); r.1 == k + ForConAlts(alts) && InConAlts(r.0) == ForConAlts(alts)
    decreases alts, 0
  {
    hide Conv, Registers, Bindings, LScoped;
    if alts != [] {
      assert (alts decreases to alts[0]);
      var n := |alts[0].args|;
      ConvDraws(Fresh(k, n) + vs, k + n, alts[0].body);
      var h := Conv(Fresh(k, n) + vs, k + n, alts[0].body);
      ConAltsDraw(vs, h.1, alts[1..]);
      var r := ConvConAlts(vs, k, alts).0;
      assert r[1..] == ConvConAlts(vs, h.1, alts[1..]).0;
    }
  }

  lemma {:induction false} ConstAltsDraw(vs: seq<int>, k: int, alts: seq<LiftedConstAlt>)
    requires forall i :: 0 <= i < |alts| ==> LScoped(alts[i].body, |vs|)
    ensures var r := ConvConstAlts(vs, k, alts); r.1 == k + ForConstAlts(alts) && InConstAlts(r.0) == ForConstAlts(alts)
    decreases alts, 0
  {
    hide Conv, Registers, Bindings, LScoped;
    if alts != [] {
      assert (alts decreases to alts[0]);
      ConvDraws(vs, k, alts[0].body);
      var h := Conv(vs, k, alts[0].body);
      ConstAltsDraw(vs, h.1, alts[1..]);
      var r := ConvConstAlts(vs, k, alts).0;
      assert r[1..] == ConvConstAlts(vs, h.1, alts[1..]).0;
    }
  }

  /** What converting a case comes to, scrutinee, branches and default converted. */
  lemma ConCaseUnfold(vs: seq<int>, k: int, l: Lifted)
    requires l.LConCase? && LScoped(l, |vs|)
    ensures LScoped(l.scr, |vs|) && (l.def.Some? ==> LScoped(l.def.value, |vs|))
    ensures forall i :: 0 <= i < |l.conAlts| ==> LScoped(l.conAlts[i].body, |l.conAlts[i].args| + |vs|)
    ensures
      var s' := Conv(vs, k, l.scr);
      var alts' := ConvConAlts(vs, s'.1, l.conAlts);
      var d' := ConvOpt(vs, alts'.1, l.def);
      Conv(vs, k, l) == if s'.0.AV? then (AConCase(s'.0.v, alts'.0, d'.0), d'.1)
                        else (ALet(d'.1, s'.0, AConCase(ALocal(d'.1), alts'.0, d'.0)), d'.1 + 1)
    ensures Registers(l) == ForScrutinee(l.scr) + ForConAlts(l.conAlts) + (if l.def.Some? then Registers(l.def.value) else 0)
  {
    hide ConvConAlts, ConvOpt, ForConAlts, ForScrutinee;
  }

  lemma LetCaseBindings(x: int, s: ANF, c: ANF)
    ensures Bindings(ALet(x, s, c)) == 1 + Bindings(s) + Bindings(c)
  {
  }

  lemma {:induction false} ConCaseDraws(vs: seq<int>, k: int, l: Lifted)
    requires l.LConCase? && LScoped(l, |vs|)
    ensures var r := Conv(vs, k, l); Draws(k, Registers(l), r) && !r.0.AV? && !r.0.AErased?
    decreases l, 0
  {
    hide Conv, ConvConAlts, InConAlts, ForConAlts, Registers, LScoped;
    ConCaseUnfold(vs, k, l);
    ConvDraws(vs, k, l.scr);
    var s' := Conv(vs, k, l.scr);
    ConAltsDraw(vs, s'.1, l.conAlts);
    var alts' := ConvConAlts(vs, s'.1, l.conAlts);
    if l.def.Some? { ConvDraws(vs, alts'.1, l.def.value); }
    var d' := ConvOpt(vs, alts'.1, l.def);
    LetCaseBindings(d'.1, s'.0, AConCase(ALocal(d'.1), alts'.0, d'.0));
  }

  /** What converting a case comes to, scrutinee, branches and default converted. */
  lemma ConstCaseUnfold(vs: seq<int>, k: int, l: Lifted)
    requires l.LConstCase? && LScoped(l, |vs|)
    ensures LScoped(l.scr, |vs|) && (l.def.Some? ==> LScoped(l.def.value, |vs|))
    ensures forall i :: 0 <= i < |l.constAlts| ==> LScoped(l.constAlts[i].body, |vs|)
    ensures
      var s' := Conv(vs, k, l.scr);
      var alts' := ConvConstAlts(vs, s'.1, l.constAlts);
      var d' := ConvOpt(vs, alts'.1, l.def);
      Conv(vs, k, l) == if s'.0.AV? then (AConstCase(s'.0.v, alts'.0, d'.0), d'.1)
                        else (ALet(d'.1, s'.0, AConstCase(ALocal(d'.1), alts'.0, d'.0)), d'.1 + 1)
    ensures Registers(l) == ForScrutinee(l.scr) + ForConstAlts(l.constAlts) + (if l.def.Some? then Registers(l.def.value) else 0)
  {
    hide ConvConstAlts, ConvOpt, ForConstAlts, ForScrutinee;
  }

  lemma {:induction false} ConstCaseDraws(vs: seq<int>, k: int, l: Lifted)
    requires l.LConstCase? && LScoped(l, |vs|)
    ensures var r := Conv(vs, k, l); Draws(k, Registers(l), r) && !r.0.AV? && !r.0.AErased?
    decreases l, 0
  {
    hide Conv, ConvConstAlts, InConstAlts, ForConstAlts, Registers, LScoped;
    ConstCaseUnfold(vs, k, l);
    ConvDraws(vs, k, l.scr);
    var s' := Conv(vs, k, l.scr);
    ConstAltsDraw(vs, s'.1, l.constAlts);
    var alts' := ConvConstAlts(vs, s'.1, l.constAlts);
    if l.def.Some? { ConvDraws(vs, alts'.1, l.def.value); }
    var d' := ConvOpt(vs, alts'.1, l.def);
    LetCaseBindings(d'.1, s'.0, AConstCase(ALocal(d'.1), alts'.0, d'.0));
  }

  /** A conversion draws exactly the registers its syntax needs and binds each. In
      particular variables and erased arguments are passed on, and a variable is
      inspected where it is. */
  lemma {:induction false} ConvDraws(vs: seq<int>, k: int, l: Lifted)
    requires LScoped(l, |vs|)
    ensures var r := Conv(vs, k, l);
            Draws(k, Registers(l), r) && (r.0.AV? <==> l.LLocal?) && (r.0.AErased? <==> l.LErased?)
    decreases l, 1
  {
    hide ForArgs, ForArg, ForConAlts, ForConstAlts, LetBind, ConvArgs, ConvList;
    match l
    case LAppName(n, args) => ArgsDraw(vs, k, args, HCall(n));
    case LUnderApp(n, m, args) => ArgsDraw(vs, k, args, HPap(n, m));
    case LApp(_, _) => AppDraws(vs, k, l);
    case LLet(_, _, _) => LetDraws(vs, k, l);
    case LCon(n, t, args) => ArgsDraw(vs, k, args, HCon(n, t));
    case LOp(op, arity, args) => ArgsDraw(vs, k, args, HOp(op, arity));
    case LExtPrim(p, args) => ArgsDraw(vs, k, args, HExt(p));
    case LConCase(_, _, _) => ConCaseDraws(vs, k, l);
    case LConstCase(_, _, _) => ConstCaseDraws(vs, k, l);
    case _ =>
  }

  lemma {:induction false} LetDraws(vs: seq<int>, k: int, l: Lifted)
    requires l.LLet? && LScoped(l, |vs|)
    ensures var r := Conv(vs, k, l); Draws(k, Registers(l), r) && !r.0.AV? && !r.0.AErased?
    decreases l, 0
  {
    ConvDraws(vs, k + 1, l.expr);
    ConvDraws([k] + vs, Conv(vs, k + 1, l.expr).1, l.body);
  }

  lemma PairCounts(f: ANF, a: ANF)
    ensures InAll([f, a]) == Bindings(f) + Bindings(a)
    ensures LetBound([f, a]) == (if f.AV? || f.AErased? then 0 else 1) + (if a.AV? || a.AErased? then 0 else 1)
  {
    hide Bindings;
    assert [f, a][1..] == [a] && [a][1..] == [];
    assert InAll([a]) == Bindings(a);
    assert LetBound([a]) == if a.AV? || a.AErased? then 0 else 1;
  }

  lemma {:induction false} AppDraws(vs: seq<int>, k: int, l: Lifted)
    requires l.LApp? && LScoped(l, |vs|)
    ensures var r := Conv(vs, k, l); Draws(k, Registers(l), r) && !r.0.AV? && !r.0.AErased?
    decreases l, 0
  {
    ConvDraws(vs, k, l.closure);
    var f := Conv(vs, k, l.closure);
    ConvDraws(vs, f.1, l.arg);
    var a := Conv(vs, f.1, l.arg);
    var xs := [f.0, a.0];
    PairCounts(f.0, a.0);
    LetBindDraws(k, a.1, xs, HApp);
  }
}

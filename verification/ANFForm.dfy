/** The shape of converted code: every variable is bound once in the whole
    definition, free variables stay in scope, and no internal crash is emitted. */
module ANFForm {
  import opened Base
  import opened LiftedSyntax
  import opened ANFSyntax
  import opened ANFConvert

  ghost predicate Within(s: set<int>, lo: int, hi: int) {
    lo <= hi && forall x :: x in s ==> lo <= x < hi
  }

  lemma WithinSum(a: set<int>, b: set<int>, lo: int, mid: int, hi: int)
    requires Within(a, lo, mid) && Within(b, mid, hi)
    ensures Within(a + b, lo, hi) && a !! b
  {
    forall x | x in a ensures x !in b { }
    forall x | x in a + b ensures lo <= x < hi { assert x in a || x in b; }
  }

  lemma WithinLast(a: set<int>, b: set<int>, lo: int, mid: int, hi: int)
    requires Within(a, lo, mid) && Within(b, mid, hi)
    ensures {hi} !! a !! b && Within({hi} + a + b, lo, hi + 1)
  {
    WithinSum(a, b, lo, mid, hi);
  }

  /** Every crash message of a lifted term is among `ms`. */
  predicate CrashesIn(l: Lifted, ms: iset<string>) {
    match l
    case LLocal(_) => true
    case LAppName(_, args) => forall i :: 0 <= i < |args| ==> CrashesIn(args[i], ms)
    case LUnderApp(_, _, args) => forall i :: 0 <= i < |args| ==> CrashesIn(args[i], ms)
    case LApp(c, a) => CrashesIn(c, ms) && CrashesIn(a, ms)
    case LLet(_, v, b) => CrashesIn(v, ms) && CrashesIn(b, ms)
    case LCon(_, _, args) => forall i :: 0 <= i < |args| ==> CrashesIn(args[i], ms)
    case LOp(_, _, args) => forall i :: 0 <= i < |args| ==> CrashesIn(args[i], ms)
    case LExtPrim(_, args) => forall i :: 0 <= i < |args| ==> CrashesIn(args[i], ms)
    case LConCase(s, alts, d) =>
      CrashesIn(s, ms) && (forall i :: 0 <= i < |alts| ==> CrashesIn(alts[i].body, ms)) &&
      (d.Some? ==> CrashesIn(d.value, ms))
    case LConstCase(s, alts, d) =>
      CrashesIn(s, ms) && (forall i :: 0 <= i < |alts| ==> CrashesIn(alts[i].body, ms)) &&
      (d.Some? ==> CrashesIn(d.value, ms))
    case LPrimVal(_) => true
    case LErased => true
    case LCrash(m) => m in ms
  }

  /** Scrutinees and returned variables are never erased, and every crash is
      among `ms`. */
  predicate Shaped(a: ANF, ms: iset<string>) {
    match a
    case AV(v) => v.ALocal?
    case ALet(_, v, b) => Shaped(v, ms) && Shaped(b, ms)
    case AConCase(s, alts, d) =>
      s.ALocal? && (forall i :: 0 <= i < |alts| ==> Shaped(alts[i].body, ms)) &&
      (d.Some? ==> Shaped(d.value, ms))
    case AConstCase(s, alts, d) =>
      s.ALocal? && (forall i :: 0 <= i < |alts| ==> Shaped(alts[i].body, ms)) &&
      (d.Some? ==> Shaped(d.value, ms))
    case ACrash(m) => m in ms
    case _ => true
  }

  /** Everything claimed of a converted term: what it binds, what it mentions, its
      shape. `scope` are the variables it may mention. */
  ghost predicate Good(a: ANF, scope: set<AVar>, lo: int, hi: int, ms: iset<string>) {
    Within(Binders(a), lo, hi) && BoundOnce(a) && FreeVariables(a) <= scope && Shaped(a, ms)
  }

  function InScope(vs: seq<int>): set<AVar> { LocalsOf(vs) + {AErasedVar} }

  // ----- Binding arguments -----

  function ListBinders(xs: seq<ANF>): set<int> {
    if xs == [] then {} else Binders(xs[0]) + ListBinders(xs[1..])
  }

  predicate ListBoundOnce(xs: seq<ANF>) {
    xs == [] || (BoundOnce(xs[0]) && ListBoundOnce(xs[1..]) && Binders(xs[0]) !! ListBinders(xs[1..]))
  }

  ghost predicate GoodList(xs: seq<ANF>, scope: set<AVar>, lo: int, hi: int, ms: iset<string>) {
    Within(ListBinders(xs), lo, hi) && ListBoundOnce(xs) &&
    forall i :: 0 <= i < |xs| ==> FreeVariables(xs[i]) <= scope && Shaped(xs[i], ms)
  }

  predicate ArityOk(h: Head, n: nat) {
    (h.HApp? ==> n == 2) && (h.HOp? ==> n == h.arity)
  }

  lemma {:induction false} DoBindBinders(k: int, xs: seq<ANF>, acc: seq<AVar>, h: Head, lo: int, hi: int)
    requires Within(ListBinders(xs), lo, hi) && ListBoundOnce(xs) && hi <= k
    ensures BindArgs(k, xs).1 >= k
    ensures var a := DoBind(acc, BindArgs(k, xs).0, h);
            BoundOnce(a) && forall x :: x in Binders(a) ==> x in ListBinders(xs) || k <= x < BindArgs(k, xs).1
    decreases |xs|
  {
    if xs != [] {
      var x, rest := xs[0], xs[1..];
      if x.AV? {
        DoBindBinders(k, rest, acc + [x.v], h, lo, hi);
        assert BindArgs(k, xs).0[1..] == BindArgs(k, rest).0;
      } else if x.AErased? {
        DoBindBinders(k, rest, acc + [AErasedVar], h, lo, hi);
        assert BindArgs(k, xs).0[1..] == BindArgs(k, rest).0;
      } else {
        DoBindBinders(k + 1, rest, acc + [ALocal(k)], h, lo, hi);
        assert BindArgs(k, xs).0[1..] == BindArgs(k + 1, rest).0;
        var r := DoBind(acc + [ALocal(k)], BindArgs(k + 1, rest).0, h);
        assert DoBind(acc, BindArgs(k, xs).0, h) == ALet(k, x, r);
        forall y | y in Binders(r) ensures y != k && y !in Binders(x) { assert y in ListBinders(rest) || k + 1 <= y; }
      }
    }
  }

  lemma {:induction false} DoBindForm(k: int, xs: seq<ANF>, acc: seq<AVar>, h: Head, scope: set<AVar>, ms: iset<string>)
    requires forall i :: 0 <= i < |xs| ==> FreeVariables(xs[i]) <= scope && Shaped(xs[i], ms)
    requires AErasedVar in scope && ArityOk(h, |acc| + |xs|)
    ensures var a := DoBind(acc, BindArgs(k, xs).0, h);
            FreeVariables(a) <= VarsOf(acc) + scope && Shaped(a, ms)
    decreases |xs|
  {
    if xs != [] {
      var x, rest := xs[0], xs[1..];
      if x.AV? {
        DoBindForm(k, rest, acc + [x.v], h, scope, ms);
        assert BindArgs(k, xs).0[1..] == BindArgs(k, rest).0;
        assert x.v in FreeVariables(xs[0]);
      } else if x.AErased? {
        DoBindForm(k, rest, acc + [AErasedVar], h, scope, ms);
        assert BindArgs(k, xs).0[1..] == BindArgs(k, rest).0;
      } else {
        DoBindForm(k + 1, rest, acc + [ALocal(k)], h, scope, ms);
        assert BindArgs(k, xs).0[1..] == BindArgs(k + 1, rest).0;
      }
    }
  }

  lemma LetBindGood(k: int, xs: seq<ANF>, h: Head, scope: set<AVar>, lo: int, ms: iset<string>)
    requires GoodList(xs, scope, lo, k, ms)
    requires AErasedVar in scope && ArityOk(h, |xs|)
    ensures Good(LetBind(k, xs, h).0, scope, lo, LetBind(k, xs, h).1, ms)
  {
    DoBindBinders(k, xs, [], h, lo, k);
    DoBindForm(k, xs, [], h, scope, ms);
  }

  // ----- The conversion -----

  lemma {:induction false} ConvGood(vs: seq<int>, k: int, l: Lifted, ms: iset<string>)
    requires LScoped(l, |vs|) && CrashesIn(l, ms)
    ensures Good(Conv(vs, k, l).0, InScope(vs), k, Conv(vs, k, l).1, ms)
    decreases l, 1
  {
    match l
    case LLocal(_) =>
    case LAppName(n, args) => ConvArgsGood(vs, k, args, HCall(n), ms);
    case LUnderApp(n, m, args) => ConvArgsGood(vs, k, args, HPap(n, m), ms);
    case LApp(_, _) => ConvAppGood(vs, k, l, ms);
    case LLet(_, _, _) => ConvLetGood(vs, k, l, ms);
    case LCon(n, t, args) => ConvArgsGood(vs, k, args, HCon(n, t), ms);
    case LOp(op, arity, args) => ConvArgsGood(vs, k, args, HOp(op, arity), ms);
    case LExtPrim(p, args) => ConvArgsGood(vs, k, args, HExt(p), ms);
    case LConCase(_, _, _) => ConvConCaseGood(vs, k, l, ms);
    case LConstCase(_, _, _) => ConvConstCaseGood(vs, k, l, ms);
    case LPrimVal(_) =>
    case LErased =>
    case LCrash(_) =>
  }

  lemma ConvAppGood(vs: seq<int>, k: int, l: Lifted, ms: iset<string>)
    requires l.LApp? && LScoped(l, |vs|) && CrashesIn(l, ms)
    ensures Good(Conv(vs, k, l).0, InScope(vs), k, Conv(vs, k, l).1, ms)
    decreases l, 0
  {
    ConvGood(vs, k, l.closure, ms);
    var f := Conv(vs, k, l.closure);
    ConvGood(vs, f.1, l.arg, ms);
    var a := Conv(vs, f.1, l.arg);
    hide Conv, FreeVariables, Shaped;
    var xs := [f.0, a.0];
    assert xs[1..] == [a.0] && [a.0][1..] == [];
    assert ListBinders([a.0]) == Binders(a.0) + ListBinders([]);
    assert ListBoundOnce([a.0]);
    WithinSum(Binders(f.0), Binders(a.0), k, f.1, a.1);
    LetBindGood(a.1, xs, HApp, InScope(vs), k, ms);
  }

  lemma ConvLetGood(vs: seq<int>, k: int, l: Lifted, ms: iset<string>)
    requires l.LLet? && LScoped(l, |vs|) && CrashesIn(l, ms)
    ensures Good(Conv(vs, k, l).0, InScope(vs), k, Conv(vs, k, l).1, ms)
    decreases l, 0
  {
    ConvGood(vs, k + 1, l.expr, ms);
    var e := Conv(vs, k + 1, l.expr);
    ConvGood([k] + vs, e.1, l.body, ms);
    var b := Conv([k] + vs, e.1, l.body);
    WithinSum({k}, Binders(e.0), k, k + 1, e.1);
    WithinSum({k} + Binders(e.0), Binders(b.0), k, e.1, b.1);
    assert InScope([k] + vs) == InScope(vs) + {ALocal(k)};
  }

  lemma {:induction false} ConvArgsGood(vs: seq<int>, k: int, ls: seq<Lifted>, h: Head, ms: iset<string>)
    requires forall i :: 0 <= i < |ls| ==> LScoped(ls[i], |vs|) && CrashesIn(ls[i], ms)
    requires ArityOk(h, |ls|)
    ensures Good(ConvArgs(vs, k, ls, h).0, InScope(vs), k, ConvArgs(vs, k, ls, h).1, ms)
    decreases ls, 1
  {
    ConvListGood(vs, k, ls, ms);
    var as' := ConvList(vs, k, ls);
    LetBindGood(as'.1, as'.0, h, InScope(vs), k, ms);
  }

  lemma {:induction false} ConvListGood(vs: seq<int>, k: int, ls: seq<Lifted>, ms: iset<string>)
    requires forall i :: 0 <= i < |ls| ==> LScoped(ls[i], |vs|) && CrashesIn(ls[i], ms)
    ensures GoodList(ConvList(vs, k, ls).0, InScope(vs), k, ConvList(vs, k, ls).1, ms)
    decreases ls, 0
  {
    if ls != [] {
      ConvGood(vs, k, ls[0], ms);
      var h := Conv(vs, k, ls[0]);
      ConvListGood(vs, h.1, ls[1..], ms);
      var t := ConvList(vs, h.1, ls[1..]);
      hide Conv, FreeVariables, Shaped;
      assert ([h.0] + t.0)[1..] == t.0;
      WithinSum(Binders(h.0), ListBinders(t.0), k, h.1, t.1);
    }
  }

  ghost predicate GoodAlts(alts: seq<AConAlt>, scope: set<AVar>, lo: int, hi: int, ms: iset<string>) {
    Within(ConBinders(alts), lo, hi) && ConBoundOnce(alts) && FreeInAlts(alts) <= scope &&
    forall i :: 0 <= i < |alts| ==> Shaped(alts[i].body, ms)
  }

  ghost predicate GoodConstAlts(alts: seq<AConstAlt>, scope: set<AVar>, lo: int, hi: int, ms: iset<string>) {
    Within(ConstBinders(alts), lo, hi) && ConstBoundOnce(alts) && FreeInConstAlts(alts) <= scope &&
    forall i :: 0 <= i < |alts| ==> Shaped(alts[i].body, ms)
  }

  ghost predicate GoodOpt(d: Option<ANF>, scope: set<AVar>, lo: int, hi: int, ms: iset<string>) {
    lo <= hi && (d.Some? ==> Good(d.value, scope, lo, hi, ms))
  }

  lemma AltGood(alt: AConAlt, rest: seq<AConAlt>, vs: seq<int>, k: int, mid: int, hi: int, ms: iset<string>)
    requires alt.args == Fresh(k, |alt.args|)
    requires Good(alt.body, InScope(alt.args + vs), k + |alt.args|, mid, ms)
    requires GoodAlts(rest, InScope(vs), mid, hi, ms)
    ensures GoodAlts([alt] + rest, InScope(vs), k, hi, ms)
  {
    var xs := ToSet(alt.args);
    var alts := [alt] + rest;
    assert alts[0] == alt && alts[1..] == rest;
    WithinSum(xs, Binders(alt.body), k, k + |alt.args|, mid);
    WithinSum(xs + Binders(alt.body), ConBinders(rest), k, mid, hi);
    assert InScope(alt.args + vs) == InScope(vs) + LocalsOf(alt.args);
    assert FreeInAlts(alts) == (FreeVariables(alt.body) - LocalsOf(alt.args)) + FreeInAlts(rest);
  }

  lemma {:induction false} ConvConAltsGood(vs: seq<int>, k: int, alts: seq<LiftedConAlt>, ms: iset<string>)
    requires forall i :: 0 <= i < |alts| ==>
               LScoped(alts[i].body, |alts[i].args| + |vs|) && CrashesIn(alts[i].body, ms)
    ensures GoodAlts(ConvConAlts(vs, k, alts).0, InScope(vs), k, ConvConAlts(vs, k, alts).1, ms)
    decreases alts, 0
  {
    if alts != [] {
      assert (alts decreases to alts[0]);
      var n := |alts[0].args|;
      var xs := Fresh(k, n);
      ConvGood(xs + vs, k + n, alts[0].body, ms);
      var h := Conv(xs + vs, k + n, alts[0].body);
      ConvConAltsGood(vs, h.1, alts[1..], ms);
      var t := ConvConAlts(vs, h.1, alts[1..]);
      var r := ConvConAlts(vs, k, alts).0;
      assert r[1..] == t.0;
      hide Conv, Shaped, ConvConAlts;
      AltGood(r[0], t.0, vs, k, h.1, t.1, ms);
      assert r == [r[0]] + t.0;
    }
  }

  lemma {:induction false} ConvConstAltsGood(vs: seq<int>, k: int, alts: seq<LiftedConstAlt>, ms: iset<string>)
    requires forall i :: 0 <= i < |alts| ==> LScoped(alts[i].body, |vs|) && CrashesIn(alts[i].body, ms)
    ensures GoodConstAlts(ConvConstAlts(vs, k, alts).0, InScope(vs), k, ConvConstAlts(vs, k, alts).1, ms)
    decreases alts, 0
  {
    if alts != [] {
      assert (alts decreases to alts[0]);
      ConvGood(vs, k, alts[0].body, ms);
      var h := Conv(vs, k, alts[0].body);
      ConvConstAltsGood(vs, h.1, alts[1..], ms);
      var t := ConvConstAlts(vs, h.1, alts[1..]);
      var r := ConvConstAlts(vs, k, alts).0;
      assert r[1..] == t.0;
      hide Conv, FreeVariables, Shaped, ConvConstAlts;
      WithinSum(Binders(h.0), ConstBinders(t.0), k, h.1, t.1);
    }
  }

  lemma {:induction false} ConvOptGood(vs: seq<int>, k: int, d: Option<Lifted>, ms: iset<string>)
    requires d.Some? ==> LScoped(d.value, |vs|) && CrashesIn(d.value, ms)
    ensures GoodOpt(ConvOpt(vs, k, d).0, InScope(vs), k, ConvOpt(vs, k, d).1, ms)
    decreases d, 0
  {
    if d.Some? { ConvGood(vs, k, d.value, ms); }
  }

  /** A case whose parts are good is good, binding its scrutinee if it must. */
  lemma ConCaseGood(s: ANF, alts: seq<AConAlt>, d: Option<ANF>, scope: set<AVar>,
                    k: int, k1: int, k2: int, k3: int, ms: iset<string>)
    requires Good(s, scope, k, k1, ms) && GoodAlts(alts, scope, k1, k2, ms) && GoodOpt(d, scope, k2, k3, ms)
    ensures s.AV? ==> Good(AConCase(s.v, alts, d), scope, k, k3, ms)
    ensures Good(ALet(k3, s, AConCase(ALocal(k3), alts, d)), scope, k, k3 + 1, ms)
  {
    var bd := if d.Some? then Binders(d.value) else {};
    WithinSum(ConBinders(alts), bd, k1, k2, k3);
    WithinLast(Binders(s), ConBinders(alts) + bd, k, k1, k3);
    hide ConBinders, FreeInAlts;
    var c := AConCase(ALocal(k3), alts, d);
    assert Binders(c) == ConBinders(alts) + bd;
    assert FreeVariables(c) <= scope + {ALocal(k3)};
    var a := ALet(k3, s, c);
    assert BoundOnce(c) && Shaped(c, ms);
    assert Binders(a) == {k3} + Binders(s) + Binders(c);
    assert BoundOnce(a) && Shaped(a, ms) && FreeVariables(a) <= scope;
  }

  lemma ConstCaseGood(s: ANF, alts: seq<AConstAlt>, d: Option<ANF>, scope: set<AVar>,
                      k: int, k1: int, k2: int, k3: int, ms: iset<string>)
    requires Good(s, scope, k, k1, ms) && GoodConstAlts(alts, scope, k1, k2, ms) && GoodOpt(d, scope, k2, k3, ms)
    ensures s.AV? ==> Good(AConstCase(s.v, alts, d), scope, k, k3, ms)
    ensures Good(ALet(k3, s, AConstCase(ALocal(k3), alts, d)), scope, k, k3 + 1, ms)
  {
    var bd := if d.Some? then Binders(d.value) else {};
    WithinSum(ConstBinders(alts), bd, k1, k2, k3);
    WithinLast(Binders(s), ConstBinders(alts) + bd, k, k1, k3);
    hide ConstBinders, FreeInConstAlts;
    var c := AConstCase(ALocal(k3), alts, d);
    assert Binders(c) == ConstBinders(alts) + bd;
    assert FreeVariables(c) <= scope + {ALocal(k3)};
    var a := ALet(k3, s, c);
    assert BoundOnce(c) && Shaped(c, ms);
    assert Binders(a) == {k3} + Binders(s) + Binders(c);
    assert BoundOnce(a) && Shaped(a, ms) && FreeVariables(a) <= scope;
  }

  lemma ConvConCaseGood(vs: seq<int>, k: int, l: Lifted, ms: iset<string>)
    requires l.LConCase? && LScoped(l, |vs|) && CrashesIn(l, ms)
    ensures Good(Conv(vs, k, l).0, InScope(vs), k, Conv(vs, k, l).1, ms)
    decreases l, 0
  {
    ConvGood(vs, k, l.scr, ms);
    var s := Conv(vs, k, l.scr);
    ConvConAltsGood(vs, s.1, l.conAlts, ms);
    var alts := ConvConAlts(vs, s.1, l.conAlts);
    ConvOptGood(vs, alts.1, l.def, ms);
    var d := ConvOpt(vs, alts.1, l.def);
    ConCaseGood(s.0, alts.0, d.0, InScope(vs), k, s.1, alts.1, d.1, ms);
  }

  lemma ConvConstCaseGood(vs: seq<int>, k: int, l: Lifted, ms: iset<string>)
    requires l.LConstCase? && LScoped(l, |vs|) && CrashesIn(l, ms)
    ensures Good(Conv(vs, k, l).0, InScope(vs), k, Conv(vs, k, l).1, ms)
    decreases l, 0
  {
    ConvGood(vs, k, l.scr, ms);
    var s := Conv(vs, k, l.scr);
    ConvConstAltsGood(vs, s.1, l.constAlts, ms);
    var alts := ConvConstAlts(vs, s.1, l.constAlts);
    ConvOptGood(vs, alts.1, l.def, ms);
    var d := ConvOpt(vs, alts.1, l.def);
    ConstCaseGood(s.0, alts.0, d.0, InScope(vs), k, s.1, alts.1, d.1, ms);
  }

  /** Over a whole definition: parameters and binders are all distinct, the body
      mentions only the parameters, and crashes only where the source did. */
  lemma DefinitionForm(d: LiftedDef, ms: iset<string>)
    requires d.MkLFun? && LScopedDef(d) && CrashesIn(d.body, ms)
    ensures var f := ToANF(d);
            && Distinct(f.args) && BoundOnce(f.body) && ToSet(f.args) !! Binders(f.body)
            && FreeVariables(f.body) <= LocalsOf(f.args) + {AErasedVar}
            && Shaped(f.body, ms)
  {
    var n, m := |d.args|, |d.scope|;
    ConvGood(Fresh(n, m) + Fresh(0, n), n + m, d.body, ms);
    Parameters(n, m);
  }

  lemma Parameters(n: nat, m: nat)
    ensures var args := Fresh(0, n) + Reverse(Fresh(n, m));
            && Distinct(args) && (forall x :: x in args ==> 0 <= x < n + m)
            && InScope(Fresh(n, m) + Fresh(0, n)) == LocalsOf(args) + {AErasedVar}
  {
    var iargs, iscope := Fresh(0, n), Fresh(n, m);
    var rev := Reverse(iscope);
    forall x | x in iscope ensures x in rev {
      assert rev[m - 1 - (x - n)] == x;
    }
  }
}

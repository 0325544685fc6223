/** `caseLam` with its counter, and what it preserves (Compiler/CaseOpts.idr). */
module CaseLamCounter {
  import opened Base
  import opened CExpSyntax
  import opened CaseOpts
  import opened CaseLamCorrect
  import Spec = CaseLamTerm
  import L = LambdaLift

  class Names {
    /** The `NextName` counter. */
    var next: int

    constructor ()
      ensures next == 0
    {
      next := 0;
    }

    method GetName() returns (x: Name)
      modifies this
      ensures x == MN("clam", old(next)) && next == old(next) + 1
    {
      x := MN("clam", next);
      next := next + 1;
    }

    method CaseLam(n: nat, e: CExp) returns (f: CExp)
      requires Scoped(e, n)
      modifies this
      ensures Spec.Res(f, next) == Spec.CaseLam(n, old(next), e)
      decreases L.Size(e), 1
    {
      match e
      case CLam(x, b) =>
        var b' := CaseLam(n + 1, b);
        f := CLam(x, b');
      case CLet(x, inl, v, s) =>
        var v' := CaseLam(n, v);
        var s' := CaseLam(n + 1, s);
        f := CLet(x, inl, v', s');
      case CApp(g, args) =>
        var g' := CaseLam(n, g);
        var args' := CaseLamList(n, args);
        f := CApp(g', args');
      case CCon(c, t, args) =>
        var args' := CaseLamList(n, args);
        f := CCon(c, t, args');
      case COp(op, arity, args) =>
        var args' := CaseLamList(n, args);
        f := COp(op, arity, args');
      case CExtPrim(p, args) =>
        var args' := CaseLamList(n, args);
        f := CExtPrim(p, args');
      case CForce(lr, t) =>
        var t' := CaseLam(n, t);
        f := CForce(lr, t');
      case CDelay(lr, t) =>
        var t' := CaseLam(n, t);
        f := CDelay(lr, t');
      case CConCase(_, _, _) => f := CaseLamBlock(n, e);
      case CConstCase(_, _, _) => f := CaseLamBlock(n, e);
      case _ => f := e;
    }

    method CaseLamBlock(n: nat, e: CExp) returns (f: CExp)
      requires Scoped(e, n) && (e.CConCase? || e.CConstCase?)
      modifies this
      ensures Spec.Res(f, next) == Spec.CaseLamBlock(n, old(next), e)
      decreases L.Size(e), 0
    {
      hide Spec.CaseLam, Spec.CaseLamAlts;
      NoInternalError(MN("clam", next), e);
      Spec.CaseScoped(e, n);
      if Liftable(e) {
        LiftsWhenLiftable(MN("clam", next), e);
        Spec.LiftedBlock(n, MN("clam", next), e);
        var x := GetName();
        var l := LiftCase(x, e).e;
        var b := CaseLamAlts(n + 1, l.body.scr, l.body);
        f := CLam(l.x, b);
      } else {
        var s := CaseLam(n, e.scr);
        f := CaseLamAlts(n, s, e);
      }
    }

    method CaseLamAlts(n: nat, s: CExp, e: CExp) returns (f: CExp)
      requires (e.CConCase? || e.CConstCase?) && Spec.AltsScoped(e, n)
      modifies this
      ensures Spec.Res(f, next) == Spec.CaseLamAlts(n, old(next), s, e)
      decreases Spec.AltsSize(e), 3
    {
      if e.CConCase? {
        var alts := CaseLamConAlts(n, e.conAlts);
        var d := CaseLamOpt(n, e.def);
        f := CConCase(s, alts, d);
      } else {
        var alts := CaseLamConstAlts(n, e.constAlts);
        var d := CaseLamOpt(n, e.def);
        f := CConstCase(s, alts, d);
      }
    }

    method CaseLamList(n: nat, es: seq<CExp>) returns (fs: seq<CExp>)
      requires forall i :: 0 <= i < |es| ==> Scoped(es[i], n)
      modifies this
      ensures Spec.Res(fs, next) == Spec.CaseLamList(n, old(next), es)
      decreases L.SizeList(es), 0
    {
      if es == [] { fs := []; } else {
        var h := CaseLam(n, es[0]);
        var t := CaseLamList(n, es[1..]);
        fs := [h] + t;
      }
    }

    method CaseLamConAlts(n: nat, alts: seq<CConAlt>) returns (bs: seq<CConAlt>)
      requires forall i :: 0 <= i < |alts| ==> Scoped(alts[i].body, |alts[i].args| + n)
      modifies this
      ensures Spec.Res(bs, next) == Spec.CaseLamConAlts(n, old(next), alts)
      decreases L.SizeConAlts(alts), 0
    {
      if alts == [] { bs := []; } else {
        var h := CaseLam(|alts[0].args| + n, alts[0].body);
        var t := CaseLamConAlts(n, alts[1..]);
        bs := [alts[0].(body := h)] + t;
      }
    }

    method CaseLamConstAlts(n: nat, alts: seq<CConstAlt>) returns (bs: seq<CConstAlt>)
      requires forall i :: 0 <= i < |alts| ==> Scoped(alts[i].body, n)
      modifies this
      ensures Spec.Res(bs, next) == Spec.CaseLamConstAlts(n, old(next), alts)
      decreases L.SizeConstAlts(alts), 0
    {
      if alts == [] { bs := []; } else {
        var h := CaseLam(n, alts[0].body);
        var t := CaseLamConstAlts(n, alts[1..]);
        bs := [alts[0].(body := h)] + t;
      }
    }

    method CaseLamOpt(n: nat, d: Option<CExp>) returns (f: Option<CExp>)
      requires d.Some? ==> Scoped(d.value, n)
      modifies this
      ensures Spec.Res(f, next) == Spec.CaseLamOpt(n, old(next), d)
      decreases if d.Some? then L.Size(d.value) else 0, 2
    {
      if d.None? { f := None; } else {
        var h := CaseLam(n, d.value);
        f := Some(h);
      }
    }
  }

  lemma LiftsWhenLiftable(x: Name, e: CExp)
    requires Liftable(e)
    ensures LiftCase(x, e).Lambda?
  {
    NoInternalError(x, e);
  }

  /** `doCaseLam` of `caseLamDef`. */
  method CaseLamDef(d: CDef) returns (r: CDef)
    requires L.ScopedDef(d)
    ensures r == Spec.CaseLamDef(d)
  {
    r := d;
    if d.MkFun? {
      var names := new Names();
      var b := names.CaseLam(|d.args|, d.body);
      r := MkFun(d.args, b);
    }
  }
}

module CaseLamPreserves {
  import opened Base
  import opened CExpSyntax
  import opened CExpEval
  import opened CaseOpts
  import opened CaseLamCorrect
  import opened CaseLamTerm
  import opened CaseLamSim
  import L = LambdaLift
  import Backend

  // ----- Renaming alone -----

  lemma {:induction false} RenBecomes(r: Renaming, e: CExp)
    requires Scoped(e, |r|)
    ensures Becomes(r, e, Ren(r, e))
    decreases e
  {
    match e
    case CLam(_, b) => RenBecomes(Up(1, r), b);
    case CLet(_, _, v, s) => RenBecomes(r, v); RenBecomes(Up(1, r), s);
    case CApp(f, args) =>
      RenBecomes(r, f);
      forall i | 0 <= i < |args| ensures Becomes(r, args[i], Ren(r, args[i])) { RenBecomes(r, args[i]); }
    case CCon(_, _, args) => forall i | 0 <= i < |args| ensures Becomes(r, args[i], Ren(r, args[i])) { RenBecomes(r, args[i]); }
    case COp(_, _, args) => forall i | 0 <= i < |args| ensures Becomes(r, args[i], Ren(r, args[i])) { RenBecomes(r, args[i]); }
    case CExtPrim(_, args) => forall i | 0 <= i < |args| ensures Becomes(r, args[i], Ren(r, args[i])) { RenBecomes(r, args[i]); }
    case CForce(_, t) => RenBecomes(r, t);
    case CDelay(_, t) => RenBecomes(r, t);
    case CConCase(_, _, _) => RenBecomesCon(r, e);
    case CConstCase(_, _, _) => RenBecomesConst(r, e);
    case _ =>
  }

  lemma {:induction false} RenBecomesCon(r: Renaming, e: CExp)
    requires Scoped(e, |r|) && e.CConCase?
    ensures PlainCon(r, e, Ren(r, e))
    decreases e, 0
  {
    var f, alts := Ren(r, e), e.conAlts;
    RenBecomes(r, e.scr);
    if e.def.Some? { RenBecomes(r, e.def.value); }
    assert AltKeys(f.conAlts) == AltKeys(alts);
    forall i | 0 <= i < |alts| ensures Becomes(Up(|alts[i].args|, r), alts[i].body, f.conAlts[i].body) {
      assert (alts decreases to alts[i]);
      RenBecomes(Up(|alts[i].args|, r), alts[i].body);
    }
    hide Becomes, Scoped;
  }

  lemma {:induction false} RenBecomesConst(r: Renaming, e: CExp)
    requires Scoped(e, |r|) && e.CConstCase?
    ensures PlainConst(r, e, Ren(r, e))
    decreases e, 0
  {
    var f, alts := Ren(r, e), e.constAlts;
    RenBecomes(r, e.scr);
    if e.def.Some? { RenBecomes(r, e.def.value); }
    assert AltConsts(f.constAlts) == AltConsts(alts);
    forall i | 0 <= i < |alts| ensures Becomes(r, alts[i].body, f.constAlts[i].body) {
      assert (alts decreases to alts[i]);
      RenBecomes(r, alts[i].body);
    }
    hide Becomes, Scoped;
  }

  // ----- Renaming and lifting -----

  /** Moving the binder of a renamed body is one renaming of it. */
  lemma MovedBody(m: nat, k: nat, r: Renaming, b: CExp)
    requires Into(r, m) && Scoped(b, 1 + k + |r|)
    ensures LiftOutLambda(k, Ren(Up(1, Up(k, r)), b)) == Ren(Move(k, r), b) && Into(Move(k, r), k + (m + 1))
  {
    var u := Up(1, Up(k, r));
    RenScoped(u, b, 1 + k + m);
    LiftOutIsMove(k, m, Ren(u, b));
    RenCompose(Moved(k, m), u, b);
    assert Compose(Moved(k, m), u) == Move(k, r);
  }

  lemma WeakenedScrutinee(m: nat, r: Renaming, e: CExp)
    requires Into(r, m) && Scoped(e, |r|)
    ensures Becomes(Later(r), e, Weaken(1, Ren(r, e)))
  {
    RenScoped(r, e, m);
    InsertNamesIsRen(0, 1, m, Ren(r, e));
    RenCompose(Insertion(0, 1, m), r, e);
    assert Compose(Insertion(0, 1, m), r) == Later(r);
    RenBecomes(Later(r), e);
  }

  /** The bodies of branches are `bs` renamed by `rs`, of which all are smaller than `h`. */
  ghost predicate Bodies(n: nat, ts: seq<CExp>, ks: seq<nat>, rs: seq<Renaming>, bs: seq<CExp>, h: nat) {
    && |ts| == |ks| == |rs| == |bs|
    && forall i :: 0 <= i < |bs| ==>
         ts[i] == Ren(rs[i], bs[i]) && Scoped(bs[i], |rs[i]|) && Into(rs[i], ks[i] + n) && L.Size(bs[i]) < h
  }

  lemma BodiesTail(n: nat, ts: seq<CExp>, ks: seq<nat>, rs: seq<Renaming>, bs: seq<CExp>, h: nat)
    requires Bodies(n, ts, ks, rs, bs, h) && ts != []
    ensures Bodies(n, ts[1..], ks[1..], rs[1..], bs[1..], h)
  {
  }

  function ConBodies(alts: seq<CConAlt>): (es: seq<CExp>)
    ensures |es| == |alts|
  {
    seq(|alts|, i requires 0 <= i < |alts| => alts[i].body)
  }

  function ConArities(alts: seq<CConAlt>): (ks: seq<nat>)
    ensures |ks| == |alts|
  {
    seq(|alts|, i requires 0 <= i < |alts| => |alts[i].args|)
  }

  function ConstBodies(alts: seq<CConstAlt>): (es: seq<CExp>)
    ensures |es| == |alts|
  {
    seq(|alts|, i requires 0 <= i < |alts| => alts[i].body)
  }

  function Zeros(k: nat): (ks: seq<nat>)
    ensures |ks| == k
  {
    seq(k, _ => 0)
  }

  /** What the traversal makes of a renamed term. */
  lemma {:induction false} CaseLamBecomes(m: nat, k: int, r: Renaming, e: CExp)
    requires Scoped(e, |r|) && Into(r, m)
    ensures Scoped(Ren(r, e), m) && Becomes(r, e, CaseLam(m, k, Ren(r, e)).out)
    decreases L.Size(e), 3, 0
  {
    RenScoped(r, e, m);
    match e
    case CLam(_, b) => CaseLamBecomes(m + 1, k, Up(1, r), b);
    case CLet(_, _, v, s) =>
      CaseLamBecomes(m, k, r, v);
      CaseLamBecomes(m + 1, CaseLam(m, k, Ren(r, v)).next, Up(1, r), s);
    case CApp(f, args) =>
      CaseLamBecomes(m, k, r, f);
      ListBecomes(m, CaseLam(m, k, Ren(r, f)).next, r, args, Ren(r, e).args);
    case CCon(_, _, args) => ListBecomes(m, k, r, args, Ren(r, e).args);
    case COp(_, _, args) => ListBecomes(m, k, r, args, Ren(r, e).args);
    case CExtPrim(_, args) => ListBecomes(m, k, r, args, Ren(r, e).args);
    case CForce(_, t) => CaseLamBecomes(m, k, r, t);
    case CDelay(_, t) => CaseLamBecomes(m, k, r, t);
    case CConCase(_, _, _) => ConBecomes(m, k, r, e);
    case CConstCase(_, _, _) => ConstBecomes(m, k, r, e);
    case _ =>
  }

  lemma {:induction false} ListBecomes(m: nat, k: int, r: Renaming, es: seq<CExp>, ts: seq<CExp>)
    requires Into(r, m) && |ts| == |es|
    requires forall i :: 0 <= i < |es| ==> Scoped(es[i], |r|) && ts[i] == Ren(r, es[i]) && Scoped(ts[i], m)
    ensures BecomesAll(r, es, CaseLamList(m, k, ts).out)
    decreases L.SizeList(es), 0, 0
  {
    hide Becomes, Scoped, Ren, CaseLam;
    if es != [] {
      CaseLamBecomes(m, k, r, es[0]);
      ListBecomes(m, CaseLam(m, k, ts[0]).next, r, es[1..], ts[1..]);
    }
  }

  lemma {:induction false} ConAltsBecome(n: nat, k: int, alts: seq<CConAlt>, rs: seq<Renaming>, bs: seq<CExp>, h: nat)
    requires Bodies(n, ConBodies(alts), ConArities(alts), rs, bs, h)
    requires forall i :: 0 <= i < |alts| ==> Scoped(alts[i].body, |alts[i].args| + n)
    ensures
      var out := CaseLamConAlts(n, k, alts).out;
      forall i :: 0 <= i < |alts| ==> out[i] == alts[i].(body := out[i].body) && Becomes(rs[i], bs[i], out[i].body)
    decreases h, 0, |alts|
  {
    hide Becomes, Scoped, Ren, CaseLam, Into;
    if alts != [] {
      assert ConBodies(alts)[0] == alts[0].body && ConArities(alts)[0] == |alts[0].args|;
      CaseLamBecomes(|alts[0].args| + n, k, rs[0], bs[0]);
      BodiesTail(n, ConBodies(alts), ConArities(alts), rs, bs, h);
      assert ConBodies(alts)[1..] == ConBodies(alts[1..]) && ConArities(alts)[1..] == ConArities(alts[1..]);
      ConAltsBecome(n, CaseLam(|alts[0].args| + n, k, alts[0].body).next, alts[1..], rs[1..], bs[1..], h);
    }
  }

  lemma {:induction false} ConstAltsBecome(n: nat, k: int, alts: seq<CConstAlt>, rs: seq<Renaming>, bs: seq<CExp>, h: nat)
    requires Bodies(n, ConstBodies(alts), Zeros(|alts|), rs, bs, h)
    requires forall i :: 0 <= i < |alts| ==> Scoped(alts[i].body, n)
    ensures
      var out := CaseLamConstAlts(n, k, alts).out;
      forall i :: 0 <= i < |alts| ==> out[i] == alts[i].(body := out[i].body) && Becomes(rs[i], bs[i], out[i].body)
    decreases h, 0, |alts|
  {
    hide Becomes, Scoped, Ren, CaseLam, Into;
    if alts != [] {
      assert ConstBodies(alts)[0] == alts[0].body && Zeros(|alts|)[0] == 0;
      CaseLamBecomes(n, k, rs[0], bs[0]);
      BodiesTail(n, ConstBodies(alts), Zeros(|alts|), rs, bs, h);
      assert ConstBodies(alts)[1..] == ConstBodies(alts[1..]) && Zeros(|alts|)[1..] == Zeros(|alts[1..]|);
      ConstAltsBecome(n, CaseLam(n, k, alts[0].body).next, alts[1..], rs[1..], bs[1..], h);
    }
  }

  lemma CaseParts(e: CExp, n: nat)
    requires Scoped(e, n) && (e.CConCase? || e.CConstCase?)
    ensures Scoped(e.scr, n) && L.Size(e.scr) < L.Size(e)
    ensures e.def.Some? ==> Scoped(e.def.value, n) && L.Size(e.def.value) < L.Size(e)
  {
  }

  lemma PlainBlock(m: nat, k: int, E: CExp)
    requires Scoped(E, m) && (E.CConCase? || E.CConstCase?) && LiftCase(MN("clam", k), E).Unchanged?
    ensures AltsScoped(E, m) && Scoped(E.scr, m)
    ensures
      var s := CaseLam(m, k, E.scr);
      CaseLamBlock(m, k, E) == CaseLamAlts(m, s.next, s.out, E)
  {
    CaseScoped(E, m);
    hide LiftCase, CaseLam, CaseLamAlts;
  }

  lemma LiftingBlock(m: nat, k: int, E: CExp) returns (b: CExp)
    requires Scoped(E, m) && (E.CConCase? || E.CConstCase?) && LiftCase(MN("clam", k), E).Lambda?
    ensures LiftsTo(E, b) && AltsScoped(b, m + 1)
    ensures CaseLamBlock(m, k, E).out == CLam(MN("clam", k), CaseLamAlts(m + 1, k + 1, b.scr, b).out)
  {
    b := LiftCaseShape(MN("clam", k), E);
    LiftedBlock(m, MN("clam", k), E);
    hide LiftCase, CaseLam, CaseLamAlts, LiftsTo, Scoped;
  }

  /** The bodies under lambdas. */
  function Under(es: seq<CExp>): (bs: seq<CExp>)
    ensures |bs| == |es|
  {
    seq(|es|, i requires 0 <= i < |es| => if es[i].CLam? then es[i].body else es[i])
  }

  lemma RenLam(r: Renaming, e: CExp)
    ensures Ren(r, e).CLam? <==> e.CLam?
    ensures e.CLam? ==> Ren(r, e).body == Ren(Up(1, r), e.body)
  {
  }

  lemma {:induction false} OptBecomes(m: nat, k: int, r: Renaming, d: Option<CExp>, t: Option<CExp>, h: nat)
    requires (t.Some? <==> d.Some?) && (d.Some? ==> t.value == Ren(r, d.value) && Scoped(d.value, |r|) && Scoped(t.value, m) && L.Size(d.value) < h) && Into(r, m)
    ensures
      var out := CaseLamOpt(m, k, t).out;
      (out.Some? <==> d.Some?) && (d.Some? ==> Becomes(r, d.value, out.value))
    decreases h, 0, 0
  {
    hide Becomes, CaseLam, Ren, Scoped;
    if d.Some? { CaseLamBecomes(m, k, r, d.value); }
  }

  lemma {:induction false} ConAltSize(alts: seq<CConAlt>, i: nat)
    requires i < |alts|
    ensures L.Size(alts[i].body) <= L.SizeConAlts(alts)
    decreases i
  {
    if i > 0 { ConAltSize(alts[1..], i - 1); }
  }

  lemma {:induction false} ConBecomes(m: nat, k: int, r: Renaming, e: CExp)
    requires Scoped(e, |r|) && Into(r, m) && e.CConCase?
    ensures Scoped(Ren(r, e), m) && Becomes(r, e, CaseLam(m, k, Ren(r, e)).out)
    decreases L.Size(e), 2, 0
  {
    RenScoped(r, e, m);
    var x, E := MN("clam", k), Ren(r, e);
    NoInternalError(x, E);
    assert CaseLam(m, k, E) == CaseLamBlock(m, k, E);
    hide CaseLam, CaseLamBlock, Scoped, Ren, LiftCase;
    if LiftCase(x, E).Lambda? {
      ConLiftedBecomes(m, k, r, e);
    } else {
      ConPlainBecomes(m, k, r, e);
    }
  }

  lemma ConShape(r: Renaming, e: CExp)
    requires e.CConCase?
    ensures
      var E := Ren(r, e);
      && E.CConCase? && |E.conAlts| == |e.conAlts| && AltKeys(E.conAlts) == AltKeys(e.conAlts) && E.scr == Ren(r, e.scr)
      && (E.def.Some? <==> e.def.Some?) && (e.def.Some? ==> E.def.value == Ren(r, e.def.value))
    ensures forall i :: 0 <= i < |e.conAlts| ==> |Ren(r, e).conAlts[i].args| == |e.conAlts[i].args|
  {
  }

  lemma {:induction false} ConPlainBecomes(m: nat, k: int, r: Renaming, e: CExp)
    requires Scoped(e, |r|) && Into(r, m) && e.CConCase? && Scoped(Ren(r, e), m) && LiftCase(MN("clam", k), Ren(r, e)).Unchanged?
    ensures PlainCon(r, e, CaseLamBlock(m, k, Ren(r, e)).out)
    decreases L.Size(e), 1, 0
  {
    hide LiftCase, CaseLam, CaseLamBlock, Scoped, Ren, Becomes, L.Size, Bodies, CaseLamConAlts, CaseLamOpt, AltKeys;
    var E := Ren(r, e);
    ConPlainBodies(m, r, e);
    ConShape(r, e);
    PlainBlock(m, k, E);
    CaseScoped(e, |r|);
    CaseParts(e, |r|);
    CaseLamBecomes(m, k, r, e.scr);
    var s := CaseLam(m, k, E.scr);
    ConAltsBecome(m, s.next, E.conAlts, seq(|e.conAlts|, i requires 0 <= i < |e.conAlts| => Up(|e.conAlts[i].args|, r)), ConBodies(e.conAlts), L.Size(e));
    var a := CaseLamConAlts(m, s.next, E.conAlts);
    OptBecomes(m, a.next, r, e.def, E.def, L.Size(e));
    KeysKeptCon(E.conAlts, a.out);
  }

  lemma ConPlainBody(m: nat, r: Renaming, e: CExp, i: nat)
    requires Scoped(e, |r|) && Into(r, m) && e.CConCase? && i < |e.conAlts|
    ensures
      var E := Ren(r, e);
      && E.CConCase? && |E.conAlts| == |e.conAlts| && E.conAlts[i].body == Ren(Up(|e.conAlts[i].args|, r), e.conAlts[i].body) && |E.conAlts[i].args| == |e.conAlts[i].args|
      && Scoped(e.conAlts[i].body, |Up(|e.conAlts[i].args|, r)|) && Into(Up(|e.conAlts[i].args|, r), |e.conAlts[i].args| + m) && L.Size(e.conAlts[i].body) < L.Size(e)
  {
    ConAltSize(e.conAlts, i);
  }

  lemma ConPlainBodies(m: nat, r: Renaming, e: CExp)
    requires Scoped(e, |r|) && Into(r, m) && e.CConCase?
    ensures
      var E := Ren(r, e);
      Bodies(m, ConBodies(E.conAlts), ConArities(E.conAlts), seq(|e.conAlts|, i requires 0 <= i < |e.conAlts| => Up(|e.conAlts[i].args|, r)), ConBodies(e.conAlts), L.Size(e))
  {
    hide Ren, Scoped, L.Size, Into;
    ConShape(r, e);
    forall i | 0 <= i < |e.conAlts|
      ensures
        var E := Ren(r, e);
        && E.CConCase? && |E.conAlts| == |e.conAlts| && E.conAlts[i].body == Ren(Up(|e.conAlts[i].args|, r), e.conAlts[i].body) && |E.conAlts[i].args| == |e.conAlts[i].args|
        && Scoped(e.conAlts[i].body, |Up(|e.conAlts[i].args|, r)|) && Into(Up(|e.conAlts[i].args|, r), |e.conAlts[i].args| + m) && L.Size(e.conAlts[i].body) < L.Size(e)
    {
      ConPlainBody(m, r, e, i);
    }
  }

  lemma KeysKeptCon(alts: seq<CConAlt>, bs: seq<CConAlt>)
    requires |bs| == |alts| && forall i :: 0 <= i < |alts| ==> bs[i] == alts[i].(body := bs[i].body)
    ensures AltKeys(bs) == AltKeys(alts)
  {
  }

  lemma ConLiftShape(E: CExp, b: CExp)
    requires E.CConCase? && LiftsTo(E, b)
    ensures b.CConCase? && |b.conAlts| == |E.conAlts| && AltKeys(b.conAlts) == AltKeys(E.conAlts) && b.scr == Weaken(1, E.scr)
    ensures forall i :: 0 <= i < |E.conAlts| ==> |b.conAlts[i].args| == |E.conAlts[i].args|
  {
    hide LiftOutLambda, Weaken, TryLiftDef, Liftable;
  }

  lemma {:induction false} ConLiftedBecomes(m: nat, k: int, r: Renaming, e: CExp)
    requires Scoped(e, |r|) && Into(r, m) && e.CConCase? && Scoped(Ren(r, e), m) && LiftCase(MN("clam", k), Ren(r, e)).Lambda?
    ensures LiftedCon(r, e, CaseLamBlock(m, k, Ren(r, e)).out)
    decreases L.Size(e), 1, 0
  {
    hide LiftCase, CaseLam, CaseLamBlock, Scoped, Ren, Becomes, LiftOutLambda, Weaken, LiftsTo, L.Size, Bodies, CaseLamConAlts, CaseLamOpt, AltKeys, Move;
    var E := Ren(r, e);
    ConShape(r, e);
    CaseParts(e, |r|);
    var b := LiftingBlock(m, k, E);
    ConLiftedBodies(m, r, e, b);
    ConLiftedDef(m, r, e, b);
    ConLiftShape(E, b);
    WeakenedScrutinee(m, r, e.scr);
    ConAltsBecome(m + 1, k + 1, b.conAlts, seq(|e.conAlts|, i requires 0 <= i < |e.conAlts| => Move(|e.conAlts[i].args|, r)), Under(ConBodies(e.conAlts)), L.Size(e));
    var a := CaseLamConAlts(m + 1, k + 1, b.conAlts);
    OptBecomes(m + 1, a.next, Move(0, r), if e.def.Some? then Some(e.def.value.body) else None, b.def, L.Size(e));
    KeysKeptCon(b.conAlts, a.out);
  }

  lemma ConLiftedBody(m: nat, r: Renaming, e: CExp, b: CExp, i: nat)
    requires Scoped(e, |r|) && Into(r, m) && e.CConCase? && LiftsTo(Ren(r, e), b) && i < |e.conAlts|
    ensures b.CConCase? && |b.conAlts| == |e.conAlts| && e.conAlts[i].body.CLam? && b.conAlts[i].body == Ren(Move(|e.conAlts[i].args|, r), e.conAlts[i].body.body) && |b.conAlts[i].args| == |e.conAlts[i].args| &&
        Scoped(e.conAlts[i].body.body, 1 + |e.conAlts[i].args| + |r|) && Into(Move(|e.conAlts[i].args|, r), |e.conAlts[i].args| + (m + 1)) && L.Size(e.conAlts[i].body.body) < L.Size(e)
  {
    hide LiftsTo, LiftOutLambda, Ren, Into;
    var body := e.conAlts[i].body;
    ConPlainBody(m, r, e, i);
    RenScoped(r, e, m);
    LiftedAlt(Ren(r, e), b, i, m);
    RenLam(Up(|e.conAlts[i].args|, r), body);
    MovedBody(m, |e.conAlts[i].args|, r, body.body);
  }

  lemma ConLiftedBodies(m: nat, r: Renaming, e: CExp, b: CExp)
    requires Scoped(e, |r|) && Into(r, m) && e.CConCase? && LiftsTo(Ren(r, e), b)
    ensures b.CConCase? && |b.conAlts| == |e.conAlts| && forall i :: 0 <= i < |e.conAlts| ==> e.conAlts[i].body.CLam?
    ensures Bodies(m + 1, ConBodies(b.conAlts), ConArities(b.conAlts), seq(|e.conAlts|, i requires 0 <= i < |e.conAlts| => Move(|e.conAlts[i].args|, r)),
                   Under(ConBodies(e.conAlts)), L.Size(e))
  {
    hide Ren, Scoped, L.Size, Into, LiftsTo, Move;
    ConShape(r, e);
    ConLiftShape(Ren(r, e), b);
    forall i | 0 <= i < |e.conAlts|
      ensures b.CConCase? && |b.conAlts| == |e.conAlts| && e.conAlts[i].body.CLam? && b.conAlts[i].body == Ren(Move(|e.conAlts[i].args|, r), e.conAlts[i].body.body) && |b.conAlts[i].args| == |e.conAlts[i].args| &&
        Scoped(e.conAlts[i].body.body, 1 + |e.conAlts[i].args| + |r|) && Into(Move(|e.conAlts[i].args|, r), |e.conAlts[i].args| + (m + 1)) && L.Size(e.conAlts[i].body.body) < L.Size(e)
    {
      ConLiftedBody(m, r, e, b, i);
    }
  }

  lemma ConLiftedDef(m: nat, r: Renaming, e: CExp, b: CExp)
    requires Scoped(e, |r|) && Into(r, m) && e.CConCase? && LiftsTo(Ren(r, e), b)
    ensures b.def.Some? <==> e.def.Some?
    ensures e.def.Some? ==>
      && e.def.value.CLam? && b.def.value == Ren(Move(0, r), e.def.value.body) && Scoped(e.def.value.body, |Move(0, r)|)
      && Into(Move(0, r), m + 1) && L.Size(e.def.value.body) < L.Size(e)
  {
    if e.def.Some? {
      RenLam(r, e.def.value);
      assert Up(0, r) == r;
      MovedBody(m, 0, r, e.def.value.body);
    }
  }

  lemma {:induction false} ConstAltSize(alts: seq<CConstAlt>, i: nat)
    requires i < |alts|
    ensures L.Size(alts[i].body) <= L.SizeConstAlts(alts)
    decreases i
  {
    if i > 0 { ConstAltSize(alts[1..], i - 1); }
  }

  lemma {:induction false} ConstBecomes(m: nat, k: int, r: Renaming, e: CExp)
    requires Scoped(e, |r|) && Into(r, m) && e.CConstCase?
    ensures Scoped(Ren(r, e), m) && Becomes(r, e, CaseLam(m, k, Ren(r, e)).out)
    decreases L.Size(e), 2, 0
  {
    RenScoped(r, e, m);
    var x, E := MN("clam", k), Ren(r, e);
    NoInternalError(x, E);
    assert CaseLam(m, k, E) == CaseLamBlock(m, k, E);
    hide CaseLam, CaseLamBlock, Scoped, Ren, LiftCase;
    if LiftCase(x, E).Lambda? {
      ConstLiftedBecomes(m, k, r, e);
    } else {
      ConstPlainBecomes(m, k, r, e);
    }
  }

  lemma ConstShape(r: Renaming, e: CExp)
    requires e.CConstCase?
    ensures
      var E := Ren(r, e);
      && E.CConstCase? && |E.constAlts| == |e.constAlts| && AltConsts(E.constAlts) == AltConsts(e.constAlts) && E.scr == Ren(r, e.scr)
      && (E.def.Some? <==> e.def.Some?) && (e.def.Some? ==> E.def.value == Ren(r, e.def.value))
  {
  }

  lemma {:induction false} ConstPlainBecomes(m: nat, k: int, r: Renaming, e: CExp)
    requires Scoped(e, |r|) && Into(r, m) && e.CConstCase? && Scoped(Ren(r, e), m) && LiftCase(MN("clam", k), Ren(r, e)).Unchanged?
    ensures PlainConst(r, e, CaseLamBlock(m, k, Ren(r, e)).out)
    decreases L.Size(e), 1, 0
  {
    hide LiftCase, CaseLam, CaseLamBlock, Scoped, Ren, Becomes, L.Size, Bodies, CaseLamConstAlts, CaseLamOpt, AltConsts;
    var E := Ren(r, e);
    ConstPlainBodies(m, r, e);
    ConstShape(r, e);
    PlainBlock(m, k, E);
    CaseScoped(e, |r|);
    CaseParts(e, |r|);
    CaseLamBecomes(m, k, r, e.scr);
    var s := CaseLam(m, k, E.scr);
    ConstAltsBecome(m, s.next, E.constAlts, seq(|e.constAlts|, i requires 0 <= i < |e.constAlts| => r), ConstBodies(e.constAlts), L.Size(e));
    var a := CaseLamConstAlts(m, s.next, E.constAlts);
    OptBecomes(m, a.next, r, e.def, E.def, L.Size(e));
    KeysKeptConst(E.constAlts, a.out);
  }

  lemma ConstPlainBody(m: nat, r: Renaming, e: CExp, i: nat)
    requires Scoped(e, |r|) && Into(r, m) && e.CConstCase? && i < |e.constAlts|
    ensures
      var E := Ren(r, e);
      && E.CConstCase? && |E.constAlts| == |e.constAlts| && E.constAlts[i].body == Ren(r, e.constAlts[i].body)
      && Scoped(e.constAlts[i].body, |r|) && Into(r, 0 + m) && L.Size(e.constAlts[i].body) < L.Size(e)
  {
    ConstAltSize(e.constAlts, i);
  }

  lemma ConstPlainBodies(m: nat, r: Renaming, e: CExp)
    requires Scoped(e, |r|) && Into(r, m) && e.CConstCase?
    ensures
      var E := Ren(r, e);
      Bodies(m, ConstBodies(E.constAlts), Zeros(|E.constAlts|), seq(|e.constAlts|, i requires 0 <= i < |e.constAlts| => r), ConstBodies(e.constAlts), L.Size(e))
  {
    hide Ren, Scoped, L.Size, Into;
    ConstShape(r, e);
    forall i | 0 <= i < |e.constAlts|
      ensures
        var E := Ren(r, e);
        && E.CConstCase? && |E.constAlts| == |e.constAlts| && E.constAlts[i].body == Ren(r, e.constAlts[i].body)
        && Scoped(e.constAlts[i].body, |r|) && Into(r, 0 + m) && L.Size(e.constAlts[i].body) < L.Size(e)
    {
      ConstPlainBody(m, r, e, i);
    }
  }

  lemma KeysKeptConst(alts: seq<CConstAlt>, bs: seq<CConstAlt>)
    requires |bs| == |alts| && forall i :: 0 <= i < |alts| ==> bs[i] == alts[i].(body := bs[i].body)
    ensures AltConsts(bs) == AltConsts(alts)
  {
  }

  lemma ConstLiftShape(E: CExp, b: CExp)
    requires E.CConstCase? && LiftsTo(E, b)
    ensures b.CConstCase? && |b.constAlts| == |E.constAlts| && AltConsts(b.constAlts) == AltConsts(E.constAlts) && b.scr == Weaken(1, E.scr)
  {
    hide LiftOutLambda, Weaken, TryLiftDef, Liftable;
  }

  lemma {:induction false} ConstLiftedBecomes(m: nat, k: int, r: Renaming, e: CExp)
    requires Scoped(e, |r|) && Into(r, m) && e.CConstCase? && Scoped(Ren(r, e), m) && LiftCase(MN("clam", k), Ren(r, e)).Lambda?
    ensures LiftedConst(r, e, CaseLamBlock(m, k, Ren(r, e)).out)
    decreases L.Size(e), 1, 0
  {
    hide LiftCase, CaseLam, CaseLamBlock, Scoped, Ren, Becomes, LiftOutLambda, Weaken, LiftsTo, L.Size, Bodies, CaseLamConstAlts, CaseLamOpt, AltConsts, Move;
    var E := Ren(r, e);
    ConstShape(r, e);
    CaseParts(e, |r|);
    var b := LiftingBlock(m, k, E);
    ConstLiftedBodies(m, r, e, b);
    ConstLiftedDef(m, r, e, b);
    ConstLiftShape(E, b);
    WeakenedScrutinee(m, r, e.scr);
    ConstAltsBecome(m + 1, k + 1, b.constAlts, seq(|e.constAlts|, i requires 0 <= i < |e.constAlts| => Move(0, r)), Under(ConstBodies(e.constAlts)), L.Size(e));
    var a := CaseLamConstAlts(m + 1, k + 1, b.constAlts);
    OptBecomes(m + 1, a.next, Move(0, r), if e.def.Some? then Some(e.def.value.body) else None, b.def, L.Size(e));
    KeysKeptConst(b.constAlts, a.out);
  }

  lemma ConstLiftedBody(m: nat, r: Renaming, e: CExp, b: CExp, i: nat)
    requires Scoped(e, |r|) && Into(r, m) && e.CConstCase? && LiftsTo(Ren(r, e), b) && i < |e.constAlts|
    ensures b.CConstCase? && |b.constAlts| == |e.constAlts| && e.constAlts[i].body.CLam? && b.constAlts[i].body == Ren(Move(0, r), e.constAlts[i].body.body) &&
        Scoped(e.constAlts[i].body.body, 1 + 0 + |r|) && Into(Move(0, r), 0 + (m + 1)) && L.Size(e.constAlts[i].body.body) < L.Size(e)
  {
    var body := e.constAlts[i].body;
    ConstPlainBody(m, r, e, i);
    assert L.Size(body) == 1 + L.Size(body.body) by { RenLam(r, body); }
    hide LiftOutLambda, Weaken, TryLiftDef, Liftable;
    RenLam(r, body);
    assert Up(0, r) == r;
    hide Ren;
    MovedBody(m, 0, r, body.body);
  }

  lemma ConstLiftedBodies(m: nat, r: Renaming, e: CExp, b: CExp)
    requires Scoped(e, |r|) && Into(r, m) && e.CConstCase? && LiftsTo(Ren(r, e), b)
    ensures b.CConstCase? && |b.constAlts| == |e.constAlts| && forall i :: 0 <= i < |e.constAlts| ==> e.constAlts[i].body.CLam?
    ensures Bodies(m + 1, ConstBodies(b.constAlts), Zeros(|b.constAlts|), seq(|e.constAlts|, i requires 0 <= i < |e.constAlts| => Move(0, r)),
                   Under(ConstBodies(e.constAlts)), L.Size(e))
  {
    hide Ren, Scoped, L.Size, Into, LiftsTo, Move;
    ConstShape(r, e);
    ConstLiftShape(Ren(r, e), b);
    forall i | 0 <= i < |e.constAlts|
      ensures b.CConstCase? && |b.constAlts| == |e.constAlts| && e.constAlts[i].body.CLam? && b.constAlts[i].body == Ren(Move(0, r), e.constAlts[i].body.body) &&
        Scoped(e.constAlts[i].body.body, 1 + 0 + |r|) && Into(Move(0, r), 0 + (m + 1)) && L.Size(e.constAlts[i].body.body) < L.Size(e)
    {
      ConstLiftedBody(m, r, e, b, i);
    }
  }

  lemma ConstLiftedDef(m: nat, r: Renaming, e: CExp, b: CExp)
    requires Scoped(e, |r|) && Into(r, m) && e.CConstCase? && LiftsTo(Ren(r, e), b)
    ensures b.def.Some? <==> e.def.Some?
    ensures e.def.Some? ==>
      && e.def.value.CLam? && b.def.value == Ren(Move(0, r), e.def.value.body) && Scoped(e.def.value.body, |Move(0, r)|)
      && Into(Move(0, r), m + 1) && L.Size(e.def.value.body) < L.Size(e)
  {
    if e.def.Some? {
      RenLam(r, e.def.value);
      assert Up(0, r) == r;
      MovedBody(m, 0, r, e.def.value.body);
    }
  }

  // ----- Programs -----

  lemma DefPreserved(d: CDef)
    requires L.ScopedDef(d)
    ensures DefBecomes(d, CaseLamDef(d))
  {
    match d
    case MkFun(args, b) =>
      RenIdentity(b, |args|);
      CaseLamBecomes(|args|, 0, Identity(|args|), b);
    case MkError(b) =>
      RenIdentity(b, 0);
      assert Identity(0) == [];
      RenBecomes([], b);
    case _ =>
  }

  /** `q` is `p` after `caseLam`, with primitives that agree. */
  ghost predicate CaseLams(p: CProg, q: CProg) {
    && (forall n :: n in p.defs ==> L.ScopedDef(p.defs[n]) && n in q.defs && q.defs[n] == CaseLamDef(p.defs[n]))
    && (forall k, vs, ws :: VRels(q, vs, ws) && p.prim(k, vs).Value? ==> q.prim(k, ws).Value? && VRel(q, p.prim(k, vs).v, q.prim(k, ws).v))
  }

  /** Whatever a call yields, the call yields after `caseLam`, on arguments that agree. */
  lemma CaseLamCalls(p: CProg, q: CProg, fuel: nat, n: Name, vs: seq<CVal>, ws: seq<CVal>)
    requires CaseLams(p, q) && VRels(q, vs, ws) && Call(p, fuel, n, vs).Value?
    ensures exists g: nat :: Call(q, g, n, ws).Value? && VRel(q, Call(p, fuel, n, vs).v, Call(q, g, n, ws).v)
  {
    hide VRel, Call;
    assert Lifts(p, q) by {
      forall m | m in p.defs ensures m in q.defs && DefBecomes(p.defs[m], q.defs[m]) {
        hide L.ScopedDef, CaseLamDef, DefBecomes;
        DefPreserved(p.defs[m]);
      }
    }
    var g, w := SimCall(p, q, fuel, n, vs, ws);
  }

  /** Data agrees with nothing but itself. */
  lemma {:induction false} DataAgrees(q: CProg, v: CVal, w: CVal)
    requires Backend.IsData(v)
    ensures VRel(q, v, w) <==> w == v
    decreases v
  {
    if v.CVCon? && w.CVCon? && |w.args| == |v.args| {
      forall i | 0 <= i < |v.args| ensures VRel(q, v.args[i], w.args[i]) <==> w.args[i] == v.args[i] {
        DataAgrees(q, v.args[i], w.args[i]);
      }
      if forall i :: 0 <= i < |v.args| ==> w.args[i] == v.args[i] { assert w.args == v.args; }
    }
  }

  /** So a call with data for arguments that yields data yields the same after `caseLam`. */
  lemma CaseLamData(p: CProg, q: CProg, fuel: nat, n: Name, vs: seq<CVal>)
    requires CaseLams(p, q) && Call(p, fuel, n, vs).Value? && Backend.IsData(Call(p, fuel, n, vs).v)
    requires forall i :: 0 <= i < |vs| ==> Backend.IsData(vs[i])
    ensures exists g: nat :: Call(q, g, n, vs) == Call(p, fuel, n, vs)
  {
    hide Call, CaseLams, VRel;
    forall i | 0 <= i < |vs| ensures VRel(q, vs[i], vs[i]) { DataAgrees(q, vs[i], vs[i]); }
    CaseLamCalls(p, q, fuel, n, vs, vs);
    var g: nat :| Call(q, g, n, vs).Value? && VRel(q, Call(p, fuel, n, vs).v, Call(q, g, n, vs).v);
    DataAgrees(q, Call(p, fuel, n, vs).v, Call(q, g, n, vs).v);
  }
}

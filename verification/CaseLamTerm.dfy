/** `caseLam` over whole terms and programs (Compiler/CaseOpts.idr). */
module CaseLamTerm {
  import opened Base
  import opened CExpSyntax
  import opened CaseOpts
  import opened CaseLamCorrect
  import L = LambdaLift

  /** A term and the next number for a name. */
  datatype Res<T> = Res(out: T, next: int)

  function AltsSize(e: CExp): nat
    requires e.CConCase? || e.CConstCase?
  {
    (if e.CConCase? then L.SizeConAlts(e.conAlts) else L.SizeConstAlts(e.constAlts)) + if e.def.Some? then L.Size(e.def.value) else 0
  }

  predicate AltsScoped(e: CExp, n: nat)
    requires e.CConCase? || e.CConstCase?
  {
    && (e.CConCase? ==> forall i :: 0 <= i < |e.conAlts| ==> Scoped(e.conAlts[i].body, |e.conAlts[i].args| + n))
    && (e.CConstCase? ==> forall i :: 0 <= i < |e.constAlts| ==> Scoped(e.constAlts[i].body, n))
    && (e.def.Some? ==> Scoped(e.def.value, n))
  }

  /** The block under a lifted lambda is of the same kind, in scope and no larger. */
  lemma LiftedBlock(n: nat, x: Name, e: CExp)
    requires Scoped(e, n) && LiftCase(x, e).Lambda?
    ensures LiftCase(x, e).e.CLam?
    ensures
      var b := LiftCase(x, e).e.body;
      (b.CConCase? || b.CConstCase?) && AltsScoped(b, n + 1) && AltsSize(b) < L.Size(e)
  {
    hide LiftCase, LiftsTo, Scoped, AltsScoped, AltsSize;
    var b := LiftCaseShape(x, e);
    LiftedKind(e, b);
    CaseScoped(e, n);
    AltsSmaller(e);
    LiftedAlts(n, e, b);
  }

  lemma LiftedKind(e: CExp, b: CExp)
    requires LiftsTo(e, b)
    ensures (e.CConCase? && b.CConCase?) || (e.CConstCase? && b.CConstCase?)
    ensures TryLiftDef(e.def) == Some(b.def)
  {
  }

  lemma AltsSmaller(e: CExp)
    requires e.CConCase? || e.CConstCase?
    ensures AltsSize(e) < L.Size(e)
  {
  }

  lemma LiftedAlts(n: nat, e: CExp, b: CExp)
    requires LiftsTo(e, b) && (e.CConCase? || e.CConstCase?) && (b.CConCase? || b.CConstCase?) && AltsScoped(e, n)
    ensures AltsScoped(b, n + 1) && AltsSize(b) <= AltsSize(e)
  {
    hide LiftOutLambda, Scoped, Weaken, TryLiftDef, Liftable, L.Size, L.SizeConAlts, L.SizeConstAlts;
    LiftedKind(e, b);
    LiftedDef(n, e, b);
    if e.CConCase? { LiftedConAlts(n, e.conAlts, b.conAlts); } else { LiftedConstAlts(n, e.constAlts, b.constAlts); }
  }

  lemma LiftedDef(n: nat, e: CExp, b: CExp)
    requires (e.CConCase? || e.CConstCase?) && (b.CConCase? || b.CConstCase?) && AltsScoped(e, n) && TryLiftDef(e.def) == Some(b.def)
    ensures b.def.Some? <==> e.def.Some?
    ensures e.def.Some? ==> Scoped(b.def.value, n + 1) && L.Size(b.def.value) < L.Size(e.def.value)
  {
    if e.def.Some? { LiftedBody(n, 0, e.def.value, b.def.value); }
  }

  lemma CaseScoped(e: CExp, n: nat)
    requires Scoped(e, n) && (e.CConCase? || e.CConstCase?)
    ensures AltsScoped(e, n)
  {
  }

  lemma LiftedBody(n: nat, k: nat, e: CExp, b: CExp)
    requires e.CLam? && Scoped(e, k + n) && b == LiftOutLambda(k, e.body)
    ensures Scoped(b, k + (n + 1)) && L.Size(b) < L.Size(e)
  {
    LiftOutIsMove(k, n, e.body);
    L.RenSize(Moved(k, n), e.body);
  }

  lemma {:induction false} LiftedConAlts(n: nat, alts: seq<CConAlt>, bs: seq<CConAlt>)
    requires |bs| == |alts| && forall i :: 0 <= i < |alts| ==>
      alts[i].body.CLam? && Scoped(alts[i].body, |alts[i].args| + n) && bs[i] == alts[i].(body := LiftOutLambda(|alts[i].args|, alts[i].body.body))
    ensures L.SizeConAlts(bs) <= L.SizeConAlts(alts)
    ensures forall i :: 0 <= i < |bs| ==> Scoped(bs[i].body, |bs[i].args| + (n + 1))
    decreases |alts|
  {
    hide LiftOutLambda, Scoped;
    if alts != [] {
      LiftedBody(n, |alts[0].args|, alts[0].body, bs[0].body);
      LiftedConAlts(n, alts[1..], bs[1..]);
      assert bs == [bs[0]] + bs[1..];
    }
  }

  lemma {:induction false} LiftedConstAlts(n: nat, alts: seq<CConstAlt>, bs: seq<CConstAlt>)
    requires |bs| == |alts| && forall i :: 0 <= i < |alts| ==>
      alts[i].body.CLam? && Scoped(alts[i].body, n) && bs[i] == alts[i].(body := LiftOutLambda(0, alts[i].body.body))
    ensures L.SizeConstAlts(bs) <= L.SizeConstAlts(alts)
    ensures forall i :: 0 <= i < |bs| ==> Scoped(bs[i].body, n + 1)
    decreases |alts|
  {
    hide LiftOutLambda, Scoped;
    if alts != [] {
      LiftedBody(n, 0, alts[0].body, bs[0].body);
      LiftedConstAlts(n, alts[1..], bs[1..]);
      assert bs == [bs[0]] + bs[1..];
    }
  }

  // ----- The traversal -----

  function CaseLam(n: nat, k: int, e: CExp): Res<CExp>
    requires Scoped(e, n)
    decreases L.Size(e), 1
  {
    match e
    case CLam(x, b) =>
      var r := CaseLam(n + 1, k, b);
      Res(CLam(x, r.out), r.next)
    case CLet(x, inl, v, s) =>
      var r := CaseLam(n, k, v);
      var t := CaseLam(n + 1, r.next, s);
      Res(CLet(x, inl, r.out, t.out), t.next)
    case CApp(f, args) =>
      var r := CaseLam(n, k, f);
      var t := CaseLamList(n, r.next, args);
      Res(CApp(r.out, t.out), t.next)
    case CCon(c, t, args) =>
      var r := CaseLamList(n, k, args);
      Res(CCon(c, t, r.out), r.next)
    case COp(op, arity, args) =>
      var r := CaseLamList(n, k, args);
      Res(COp(op, arity, r.out), r.next)
    case CExtPrim(p, args) =>
      var r := CaseLamList(n, k, args);
      Res(CExtPrim(p, r.out), r.next)
    case CForce(lr, t) =>
      var r := CaseLam(n, k, t);
      Res(CForce(lr, r.out), r.next)
    case CDelay(lr, t) =>
      var r := CaseLam(n, k, t);
      Res(CDelay(lr, r.out), r.next)
    case CConCase(_, _, _) => CaseLamBlock(n, k, e)
    case CConstCase(_, _, _) => CaseLamBlock(n, k, e)
    case _ => Res(e, k)
  }

  /** A block whose branches are all lambdas gets one lambda outside, and its scrutinee
      is only weakened; any other is traversed. */
  function CaseLamBlock(n: nat, k: int, e: CExp): Res<CExp>
    requires Scoped(e, n) && (e.CConCase? || e.CConstCase?)
    decreases L.Size(e), 0
  {
    NoInternalError(MN("clam", k), e);
    match LiftCase(MN("clam", k), e)
    case Lambda(l) =>
      LiftedBlock(n, MN("clam", k), e);
      var r := CaseLamAlts(n + 1, k + 1, l.body.scr, l.body);
      Res(CLam(l.x, r.out), r.next)
    case Unchanged =>
      CaseScoped(e, n);
      var s := CaseLam(n, k, e.scr);
      CaseLamAlts(n, s.next, s.out, e)
    case InternalError(_) => assert false; Res(e, k)
  }

  /** Traverse the branches of a block and give it scrutinee `s`. */
  function CaseLamAlts(n: nat, k: int, s: CExp, e: CExp): Res<CExp>
    requires (e.CConCase? || e.CConstCase?) && AltsScoped(e, n)
    decreases AltsSize(e), 3
  {
    if e.CConCase? then
      var a := CaseLamConAlts(n, k, e.conAlts);
      var d := CaseLamOpt(n, a.next, e.def);
      Res(CConCase(s, a.out, d.out), d.next)
    else
      var a := CaseLamConstAlts(n, k, e.constAlts);
      var d := CaseLamOpt(n, a.next, e.def);
      Res(CConstCase(s, a.out, d.out), d.next)
  }

  function CaseLamList(n: nat, k: int, es: seq<CExp>): (r: Res<seq<CExp>>)
    requires forall i :: 0 <= i < |es| ==> Scoped(es[i], n)
    ensures |r.out| == |es|
    decreases L.SizeList(es), 0
  {
    if es == [] then Res([], k)
    else
      var r := CaseLam(n, k, es[0]);
      var t := CaseLamList(n, r.next, es[1..]);
      Res([r.out] + t.out, t.next)
  }

  function CaseLamConAlts(n: nat, k: int, alts: seq<CConAlt>): (r: Res<seq<CConAlt>>)
    requires forall i :: 0 <= i < |alts| ==> Scoped(alts[i].body, |alts[i].args| + n)
    ensures |r.out| == |alts|
    decreases L.SizeConAlts(alts), 0
  {
    if alts == [] then Res([], k)
    else
      var r := CaseLam(|alts[0].args| + n, k, alts[0].body);
      var t := CaseLamConAlts(n, r.next, alts[1..]);
      Res([alts[0].(body := r.out)] + t.out, t.next)
  }

  function CaseLamConstAlts(n: nat, k: int, alts: seq<CConstAlt>): (r: Res<seq<CConstAlt>>)
    requires forall i :: 0 <= i < |alts| ==> Scoped(alts[i].body, n)
    ensures |r.out| == |alts|
    decreases L.SizeConstAlts(alts), 0
  {
    if alts == [] then Res([], k)
    else
      var r := CaseLam(n, k, alts[0].body);
      var t := CaseLamConstAlts(n, r.next, alts[1..]);
      Res([alts[0].(body := r.out)] + t.out, t.next)
  }

  function CaseLamOpt(n: nat, k: int, d: Option<CExp>): Res<Option<CExp>>
    requires d.Some? ==> Scoped(d.value, n)
    decreases if d.Some? then L.Size(d.value) else 0, 2
  {
    if d.None? then Res(None, k)
    else
      var r := CaseLam(n, k, d.value);
      Res(Some(r.out), r.next)
  }

  function CaseLamDef(d: CDef): CDef
    requires L.ScopedDef(d)
  {
    match d
    case MkFun(args, b) => MkFun(args, CaseLam(|args|, 0, b).out)
    case _ => d
  }
}

/** From de Bruijn indices to unique names and back (Core/CompileExpr.idr). */
module NamedSyntax {
  import opened Base
  import opened CExpSyntax

  datatype NamedCExp =
    | NmLocal(x: Name)
    | NmRef(n: Name)
    | NmLam(x: Name, body: NamedCExp)
    | NmLet(x: Name, val: NamedCExp, sc: NamedCExp)
    | NmApp(f: NamedCExp, args: seq<NamedCExp>)
    | NmCon(con: Name, tag: Option<int>, args: seq<NamedCExp>)
    | NmOp(op: string, arity: nat, args: seq<NamedCExp>)
    | NmExtPrim(p: Name, args: seq<NamedCExp>)
    | NmForce(reason: LazyReason, tm: NamedCExp)
    | NmDelay(reason: LazyReason, tm: NamedCExp)
    | NmConCase(scr: NamedCExp, conAlts: seq<NamedConAlt>, def: Option<NamedCExp>)
    | NmConstCase(scr: NamedCExp, constAlts: seq<NamedConstAlt>, def: Option<NamedCExp>)
    | NmPrimVal(c: Constant)
    | NmErased
    | NmCrash(msg: string)

  datatype NamedConAlt = MkNConAlt(con: Name, tag: Option<int>, args: seq<Name>, body: NamedCExp)

  datatype NamedConstAlt = MkNConstAlt(c: Constant, body: NamedCExp)

  datatype NamedDef =
    | MkNmFun(args: seq<Name>, body: NamedCExp)
    | MkNmCon(tag: Option<int>, arity: nat)
    | MkNmForeign(arity: nat)
    | MkNmError(expl: NamedCExp)

  /** Equality of names looks through a display name. */
  predicate NameEq(m: Name, n: Name) {
    match (m, n)
    case (NS(a, x), NS(b, y)) => NameEq(x, y) && a == b
    case (PV(x, i), PV(y, j)) => NameEq(x, y) && i == j
    case (DN(_, x), DN(_, y)) => NameEq(x, y)
    case (Nested(a, i, x), Nested(b, j, y)) => a == b && i == j && NameEq(x, y)
    case _ => m == n
  }

  lemma NameEqRefl(n: Name)
    ensures NameEq(n, n)
  {
  }

  lemma NameEqSym(m: Name, n: Name)
    ensures NameEq(m, n) == NameEq(n, m)
  {
  }
}

module Forgetting {
  import opened Base
  import opened CExpSyntax
  import opened NamedSyntax
  import LambdaLift

  function NameRoot(n: Name): string {
    match n
    case NS(_, m) => NameRoot(m)
    case UN(u) => LambdaLift.DisplayUserName(u)
    case MN(r, _) => r
    case PV(m, _) => NameRoot(m)
    case DN(_, m) => NameRoot(m)
    case Nested(_, _, m) => NameRoot(m)
    case CaseBlock(o, _) => "$\"" + o + "\""
    case WithBlock(o, _) => "$\"" + o + "\""
    case Resolved(i) => "$" + LambdaLift.ShowInt(i)
  }

  function TryNext(n: Name): (r: Name)
    ensures r.MN?
  {
    match n
    case UN(u) => MN(LambdaLift.DisplayUserName(u), 0)
    case MN(r, i) => MN(r, 1 + i)
    case _ => MN(NameRoot(n), 0)
  }

  predicate Elem(n: Name, ns: seq<Name>) {
    ns != [] && (NameEq(n, ns[0]) || Elem(n, ns[1..]))
  }

  /** The machine names in `ns` that the search for `n` may still run into. */
  function Clashes(n: Name, ns: seq<Name>): set<Name> {
    set m | m in ns && m.MN? && (n.MN? ==> m.root == n.root && m.index >= n.index)
  }

  lemma ElemMN(n: Name, ns: seq<Name>)
    requires n.MN?
    ensures Elem(n, ns) <==> n in ns
  {
  }

  /** The search ends: each step passes one clashing machine name. */
  function UniqueName(s: Name, ns: seq<Name>): (r: Name)
    ensures !Elem(r, ns)
    decreases if s.MN? then 0 else 1, Clashes(s, ns)
  {
    if Elem(s, ns) then
      assert s.MN? ==> Clashes(TryNext(s), ns) < Clashes(s, ns) by {
        if s.MN? {
          ElemMN(s, ns);
          assert s in Clashes(s, ns) && s !in Clashes(TryNext(s), ns);
        }
      }
      UniqueName(TryNext(s), ns)
    else s
  }

  /** The first number that the search for `s` tries. */
  function FirstTry(s: Name): int { if s.MN? then s.index + 1 else 0 }

  /** Every machine name of that root numbered from `lo` up to `hi` is taken. */
  predicate TakenUpTo(root: string, lo: int, hi: int, ns: seq<Name>) {
    forall k :: lo <= k < hi ==> Elem(MN(root, k), ns)
  }

  /** A name that is free is kept; one that is taken keeps its root and gets the least
      number that is free. */
  lemma {:induction false} UniqueNameLeast(s: Name, ns: seq<Name>)
    ensures var r := UniqueName(s, ns);
            if Elem(s, ns)
            then r.MN? && r.root == NameRoot(s) && r.index >= FirstTry(s) && TakenUpTo(r.root, FirstTry(s), r.index, ns)
            else r == s
    decreases if s.MN? then 0 else 1, Clashes(s, ns)
  {
    if Elem(s, ns) {
      if s.MN? {
        ElemMN(s, ns);
        assert s in Clashes(s, ns) && s !in Clashes(TryNext(s), ns);
        assert Clashes(TryNext(s), ns) < Clashes(s, ns);
      }
      UniqueNameLeast(TryNext(s), ns);
      var t, r := TryNext(s), UniqueName(s, ns);
      assert t == MN(NameRoot(s), FirstTry(s)) && r == UniqueName(t, ns);
      forall k | FirstTry(s) <= k < r.index ensures Elem(MN(r.root, k), ns) {}
    }
  }

  function AddLocs(args: seq<Name>, ns: seq<Name>): (r: seq<Name>)
    ensures |r| == |args| + |ns| && r[|args|..] == ns
  {
    if args == [] then ns
    else
      var rest := AddLocs(args[1..], ns);
      [UniqueName(args[0], rest)] + rest
  }

  function ConArgs(args: seq<Name>, ns: seq<Name>): (r: seq<Name>)
    requires |args| <= |ns|
    ensures r == ns[..|args|]
  {
    if args == [] then [] else [ns[0]] + ConArgs(args[1..], ns[1..])
  }

  function ForgetExp(locs: seq<Name>, e: CExp): NamedCExp
    requires Scoped(e, |locs|)
    decreases e
  {
    match e
    case CLocal(i) => NmLocal(locs[i])
    case CRef(n) => NmRef(n)
    case CLam(x, b) =>
      var locs' := AddLocs([x], locs);
      NmLam(locs'[0], ForgetExp(locs', b))
    case CLet(x, _, v, s) =>
      var locs' := AddLocs([x], locs);
      NmLet(locs'[0], ForgetExp(locs, v), ForgetExp(locs', s))
    case CApp(f, args) =>
      NmApp(ForgetExp(locs, f), seq(|args|, i requires 0 <= i < |args| => ForgetExp(locs, args[i])))
    case CCon(n, t, args) =>
      NmCon(n, t, seq(|args|, i requires 0 <= i < |args| => ForgetExp(locs, args[i])))
    case COp(op, arity, args) =>
      NmOp(op, arity, seq(|args|, i requires 0 <= i < |args| => ForgetExp(locs, args[i])))
    case CExtPrim(p, args) =>
      NmExtPrim(p, seq(|args|, i requires 0 <= i < |args| => ForgetExp(locs, args[i])))
    case CForce(lr, t) => NmForce(lr, ForgetExp(locs, t))
    case CDelay(lr, t) => NmDelay(lr, ForgetExp(locs, t))
    case CConCase(s, alts, d) =>
      NmConCase(ForgetExp(locs, s),
                seq(|alts|, i requires 0 <= i < |alts| =>
                  var locs' := AddLocs(alts[i].args, locs);
                  MkNConAlt(alts[i].con, alts[i].tag, ConArgs(alts[i].args, locs'), ForgetExp(locs', alts[i].body))),
                if d.Some? then Some(ForgetExp(locs, d.value)) else None)
    case CConstCase(s, alts, d) =>
      NmConstCase(ForgetExp(locs, s),
                  seq(|alts|, i requires 0 <= i < |alts| =>
                    MkNConstAlt(alts[i].c, ForgetExp(locs, alts[i].body))),
                  if d.Some? then Some(ForgetExp(locs, d.value)) else None)
    case CPrimVal(c) => NmPrimVal(c)
    case CErased => NmErased
    case CCrash(m) => NmCrash(m)
  }

  function Forget(vars: Scope, e: CExp): NamedCExp
    requires Scoped(e, |vars|)
  {
    ForgetExp(AddLocs(vars, []), e)
  }

  function ForgetDef(d: CDef): NamedDef
    requires d.MkFun? ==> Scoped(d.body, |d.args|)
    requires d.MkError? ==> Scoped(d.expl, 0)
  {
    match d
    case MkFun(args, e) => MkNmFun(ConArgs(args, AddLocs(args, [])), Forget(args, e))
    case MkCon(t, a) => MkNmCon(t, a)
    case MkForeign(a) => MkNmForeign(a)
    case MkError(e) => MkNmError(Forget([], e))
  }

  // ----- Reading names back -----

  function Lookup(n: Name, ns: seq<Name>): Option<nat> {
    if ns == [] then None
    else if NameEq(n, ns[0]) then Some(0)
    else
      var rest := Lookup(n, ns[1..]);
      if rest.Some? then Some(rest.value + 1) else None
  }

  const Blank: Name := UN(Underscore)

  function Blanks(k: nat): (s: seq<Name>) ensures |s| == k { seq(k, _ => Blank) }

  /** Replace each local name by the index of its innermost binder. A name that is
      not bound becomes a crash. */
  function Resolve(ns: seq<Name>, e: NamedCExp): CExp
    decreases e
  {
    match e
    case NmLocal(x) =>
      var i := Lookup(x, ns);
      if i.Some? then CLocal(i.value) else CCrash("unbound")
    case NmRef(n) => CRef(n)
    case NmLam(x, b) => CLam(Blank, Resolve([x] + ns, b))
    case NmLet(x, v, s) => CLet(Blank, true, Resolve(ns, v), Resolve([x] + ns, s))
    case NmApp(f, args) =>
      CApp(Resolve(ns, f), seq(|args|, i requires 0 <= i < |args| => Resolve(ns, args[i])))
    case NmCon(n, t, args) =>
      CCon(n, t, seq(|args|, i requires 0 <= i < |args| => Resolve(ns, args[i])))
    case NmOp(op, arity, args) =>
      COp(op, arity, seq(|args|, i requires 0 <= i < |args| => Resolve(ns, args[i])))
    case NmExtPrim(p, args) =>
      CExtPrim(p, seq(|args|, i requires 0 <= i < |args| => Resolve(ns, args[i])))
    case NmForce(lr, t) => CForce(lr, Resolve(ns, t))
    case NmDelay(lr, t) => CDelay(lr, Resolve(ns, t))
    case NmConCase(s, alts, d) =>
      CConCase(Resolve(ns, s),
               seq(|alts|, i requires 0 <= i < |alts| =>
                 MkConAlt(alts[i].con, alts[i].tag, Blanks(|alts[i].args|), Resolve(alts[i].args + ns, alts[i].body))),
               if d.Some? then Some(Resolve(ns, d.value)) else None)
    case NmConstCase(s, alts, d) =>
      CConstCase(Resolve(ns, s),
                 seq(|alts|, i requires 0 <= i < |alts| => MkConstAlt(alts[i].c, Resolve(ns, alts[i].body))),
                 if d.Some? then Some(Resolve(ns, d.value)) else None)
    case NmPrimVal(c) => CPrimVal(c)
    case NmErased => CErased
    case NmCrash(m) => CCrash(m)
  }

  /** A term without its binder names and inline flags. */
  function Anon(e: CExp): CExp
    decreases e
  {
    match e
    case CLam(_, b) => CLam(Blank, Anon(b))
    case CLet(_, _, v, s) => CLet(Blank, true, Anon(v), Anon(s))
    case CApp(f, args) => CApp(Anon(f), seq(|args|, i requires 0 <= i < |args| => Anon(args[i])))
    case CCon(n, t, args) => CCon(n, t, seq(|args|, i requires 0 <= i < |args| => Anon(args[i])))
    case COp(op, arity, args) => COp(op, arity, seq(|args|, i requires 0 <= i < |args| => Anon(args[i])))
    case CExtPrim(p, args) => CExtPrim(p, seq(|args|, i requires 0 <= i < |args| => Anon(args[i])))
    case CForce(lr, t) => CForce(lr, Anon(t))
    case CDelay(lr, t) => CDelay(lr, Anon(t))
    case CConCase(s, alts, d) =>
      CConCase(Anon(s),
               seq(|alts|, i requires 0 <= i < |alts| =>
                 alts[i].(args := Blanks(|alts[i].args|), body := Anon(alts[i].body))),
               if d.Some? then Some(Anon(d.value)) else None)
    case CConstCase(s, alts, d) =>
      CConstCase(Anon(s),
                 seq(|alts|, i requires 0 <= i < |alts| => alts[i].(body := Anon(alts[i].body))),
                 if d.Some? then Some(Anon(d.value)) else None)
    case _ => e
  }

  // ----- Generated names are pairwise distinct -----

  ghost predicate Distinct(ns: seq<Name>) {
    forall i, j :: 0 <= i < j < |ns| ==> !NameEq(ns[j], ns[i])
  }

  lemma {:induction false} ElemIff(n: Name, ns: seq<Name>)
    ensures Elem(n, ns) <==> exists i :: 0 <= i < |ns| && NameEq(n, ns[i])
    decreases ns
  {
    if ns != [] {
      ElemIff(n, ns[1..]);
      if Elem(n, ns[1..]) {
        var i :| 0 <= i < |ns[1..]| && NameEq(n, ns[1..][i]);
        assert NameEq(n, ns[i + 1]);
      }
      if i :| 0 <= i < |ns| && NameEq(n, ns[i]) {
        if i > 0 { assert NameEq(n, ns[1..][i - 1]); }
      }
    }
  }

  lemma {:induction false} AddLocsDistinct(args: seq<Name>, ns: seq<Name>)
    requires Distinct(ns)
    ensures Distinct(AddLocs(args, ns))
    decreases args
  {
    if args != [] {
      AddLocsDistinct(args[1..], ns);
      var rest := AddLocs(args[1..], ns);
      var n := UniqueName(args[0], rest);
      var r := [n] + rest;
      ElemIff(n, rest);
      forall i, j | 0 <= i < j < |r| ensures !NameEq(r[j], r[i]) {
        if i == 0 { NameEqSym(n, rest[j - 1]); } else { assert r[j] == rest[j - 1] && r[i] == rest[i - 1]; }
      }
    }
  }

  lemma DistinctCons(n: Name, ns: seq<Name>)
    ensures Distinct([n] + ns) <==> Distinct(ns) && !Elem(n, ns)
  {
    hide NameEq;
    var all := [n] + ns;
    ElemIff(n, ns);
    forall i | 0 <= i < |ns| ensures NameEq(ns[i], n) == NameEq(n, ns[i]) { NameEqSym(ns[i], n); }
    if Distinct(all) {
      forall i, j | 0 <= i < j < |ns| ensures !NameEq(ns[j], ns[i]) { assert ns[j] == all[j + 1] && ns[i] == all[i + 1]; }
      forall i | 0 <= i < |ns| ensures !NameEq(n, ns[i]) { assert all[0] == n && all[i + 1] == ns[i]; }
    }
    if Distinct(ns) && !Elem(n, ns) {
      forall i, j | 0 <= i < j < |all| ensures !NameEq(all[j], all[i]) {
        if i == 0 { assert all[j] == ns[j - 1]; } else { assert all[j] == ns[j - 1] && all[i] == ns[i - 1]; }
      }
    }
  }

  /** Arguments keep their names exactly when these clash with nothing, in scope or
      among themselves. */
  lemma {:induction false} AddLocsKeepsIff(args: seq<Name>, ns: seq<Name>)
    requires Distinct(ns)
    ensures AddLocs(args, ns) == args + ns <==> Distinct(args + ns)
    decreases args
  {
    hide Distinct, Elem, UniqueName;
    if args == [] {
      assert args + ns == ns;
    } else {
      var tail, rest := args[1..] + ns, AddLocs(args[1..], ns);
      assert args + ns == [args[0]] + tail;
      DistinctCons(args[0], tail);
      AddLocsKeepsIff(args[1..], ns);
      UniqueNameLeast(args[0], rest);
      if AddLocs(args, ns) == args + ns {
        assert rest == AddLocs(args, ns)[1..] == tail;
        assert !Elem(UniqueName(args[0], rest), rest);
      }
    }
  }

  lemma {:induction false} LookupDistinct(ns: seq<Name>, i: nat)
    requires Distinct(ns) && i < |ns|
    ensures Lookup(ns[i], ns) == Some(i)
    decreases ns
  {
    if i == 0 { NameEqRefl(ns[0]); } else {
      assert forall j, k :: 0 <= j < k < |ns[1..]| ==> ns[1..][j] == ns[j + 1] && ns[1..][k] == ns[k + 1];
      assert Distinct(ns[1..]);
      LookupDistinct(ns[1..], i - 1);
    }
  }

  /** Resolving the names that forgetting generated gives the term back. */
  lemma {:induction false} ForgetInverts(locs: seq<Name>, e: CExp)
    requires Scoped(e, |locs|) && Distinct(locs)
    ensures Resolve(locs, ForgetExp(locs, e)) == Anon(e)
    decreases e, 1
  {
    match e
    case CLocal(i) => LookupDistinct(locs, i);
    case CRef(_) =>
    case CLam(x, b) => BinderInverts(locs, x, b);
    case CLet(x, _, v, s) =>
      ForgetInverts(locs, v);
      BinderInverts(locs, x, s);
    case CApp(f, args) =>
      ForgetInverts(locs, f);
      forall i | 0 <= i < |args| { ForgetInverts(locs, args[i]); }
    case CCon(_, _, args) => forall i | 0 <= i < |args| { ForgetInverts(locs, args[i]); }
    case COp(_, _, args) => forall i | 0 <= i < |args| { ForgetInverts(locs, args[i]); }
    case CExtPrim(_, args) => forall i | 0 <= i < |args| { ForgetInverts(locs, args[i]); }
    case CForce(_, t) => ForgetInverts(locs, t);
    case CDelay(_, t) => ForgetInverts(locs, t);
    case CConCase(_, _, _) => ForgetInvertsCon(locs, e);
    case CConstCase(_, _, _) => ForgetInvertsConst(locs, e);
    case CPrimVal(_) =>
    case CErased =>
    case CCrash(_) =>
  }

  lemma {:induction false} BinderInverts(locs: seq<Name>, x: Name, b: CExp)
    requires Distinct(locs) && Scoped(b, 1 + |locs|)
    ensures
      var locs' := AddLocs([x], locs);
      locs' == [locs'[0]] + locs && Resolve([locs'[0]] + locs, ForgetExp(locs', b)) == Anon(b)
    decreases b, 2
  {
    AddLocsDistinct([x], locs);
    var locs' := AddLocs([x], locs);
    assert locs' == [locs'[0]] + locs'[1..];
    ForgetInverts(locs', b);
  }

  lemma {:induction false} ForgetInvertsCon(locs: seq<Name>, e: CExp)
    requires Scoped(e, |locs|) && Distinct(locs) && e.CConCase?
    ensures Resolve(locs, ForgetExp(locs, e)) == Anon(e)
    decreases e, 0
  {
    ForgetInverts(locs, e.scr);
    if e.def.Some? { ForgetInverts(locs, e.def.value); }
    var alts := e.conAlts;
    var rs, ans := Resolve(locs, ForgetExp(locs, e)).conAlts, Anon(e).conAlts;
    forall i | 0 <= i < |alts| ensures rs[i] == ans[i] {
      assert (alts decreases to alts[i]);
      var locs' := AddLocs(alts[i].args, locs);
      AddLocsDistinct(alts[i].args, locs);
      assert ConArgs(alts[i].args, locs') + locs == locs';
      ForgetInverts(locs', alts[i].body);
    }
    SeqEq(rs, ans);
  }

  lemma {:induction false} ForgetInvertsConst(locs: seq<Name>, e: CExp)
    requires Scoped(e, |locs|) && Distinct(locs) && e.CConstCase?
    ensures Resolve(locs, ForgetExp(locs, e)) == Anon(e)
    decreases e, 0
  {
    ForgetInverts(locs, e.scr);
    if e.def.Some? { ForgetInverts(locs, e.def.value); }
    var alts := e.constAlts;
    var rs, ans := Resolve(locs, ForgetExp(locs, e)).constAlts, Anon(e).constAlts;
    forall i | 0 <= i < |alts| ensures rs[i] == ans[i] {
      assert (alts decreases to alts[i]);
      ForgetInverts(locs, alts[i].body);
    }
    SeqEq(rs, ans);
  }

  function ResolveDef(d: NamedDef): CDef {
    match d
    case MkNmFun(args, e) => MkFun(Blanks(|args|), Resolve(args, e))
    case MkNmCon(t, a) => MkCon(t, a)
    case MkNmForeign(a) => MkForeign(a)
    case MkNmError(e) => MkError(Resolve([], e))
  }

  function AnonDef(d: CDef): CDef {
    match d
    case MkFun(args, e) => MkFun(Blanks(|args|), Anon(e))
    case MkError(e) => MkError(Anon(e))
    case _ => d
  }

  /** Reading a definition back gives the original one, and a function's arguments are
      pairwise distinct. */
  lemma ForgetDefInverts(d: CDef)
    requires d.MkFun? ==> Scoped(d.body, |d.args|)
    requires d.MkError? ==> Scoped(d.expl, 0)
    ensures ResolveDef(ForgetDef(d)) == AnonDef(d)
    ensures d.MkFun? ==> Distinct(ForgetDef(d).args)
  {
    hide Anon, Resolve, ForgetExp, Distinct;
    match d
    case MkFun(args, e) =>
      AddLocsDistinct(args, []);
      var locs := AddLocs(args, []);
      assert ConArgs(args, locs) == locs;
      ForgetInverts(locs, e);
    case MkError(e) => ForgetInverts([], e);
    case _ =>
  }
}

/** Lambda lifting (Compiler/LambdaLift.idr, lazy annotations off): every lambda
    becomes a new top-level function that abstracts only over the variables its
    body uses. */
module LambdaLift {
  import opened Base
  import opened CExpSyntax
  import opened LiftedSyntax

  // ----- Sizes, the measure for lifting a delayed term -----

  function Size(e: CExp): (s: nat)
    ensures s > 0
  {
    match e
    case CLocal(_) => 1
    case CRef(_) => 1
    case CLam(_, b) => 1 + Size(b)
    case CLet(_, _, v, s) => 1 + Size(v) + Size(s)
    case CApp(f, args) => 1 + Size(f) + SizeList(args)
    case CCon(_, _, args) => 1 + SizeList(args)
    case COp(_, _, args) => 1 + SizeList(args)
    case CExtPrim(_, args) => 1 + SizeList(args)
    case CForce(_, t) => 4 + Size(t)
    case CDelay(_, t) => 2 + Size(t)
    case CConCase(s, alts, d) =>
      1 + Size(s) + SizeConAlts(alts) + (if d.Some? then Size(d.value) else 0)
    case CConstCase(s, alts, d) =>
      1 + Size(s) + SizeConstAlts(alts) + (if d.Some? then Size(d.value) else 0)
    case CPrimVal(_) => 1
    case CErased => 1
    case CCrash(_) => 1
  }

  function SizeList(es: seq<CExp>): nat {
    if es == [] then 0 else 1 + Size(es[0]) + SizeList(es[1..])
  }

  function SizeConAlts(alts: seq<CConAlt>): nat {
    if alts == [] then 0 else 1 + Size(alts[0].body) + SizeConAlts(alts[1..])
  }

  function SizeConstAlts(alts: seq<CConstAlt>): nat {
    if alts == [] then 0
    else
      assert (alts decreases to alts[0]);
      1 + Size(alts[0].body) + SizeConstAlts(alts[1..])
  }

  lemma {:induction false} RenSize(r: Renaming, e: CExp)
    ensures Size(Ren(r, e)) == Size(e)
    decreases e
  {
    match e
    case CLocal(_) =>
    case CRef(_) =>
    case CLam(_, b) => RenSize(Up(1, r), b);
    case CLet(_, _, v, s) => RenSize(r, v); RenSize(Up(1, r), s);
    case CApp(f, args) => RenSize(r, f); RenSizeList(r, args, Ren(r, e).args);
    case CCon(_, _, args) => RenSizeList(r, args, Ren(r, e).args);
    case COp(_, _, args) => RenSizeList(r, args, Ren(r, e).args);
    case CExtPrim(_, args) => RenSizeList(r, args, Ren(r, e).args);
    case CForce(_, t) => RenSize(r, t);
    case CDelay(_, t) => RenSize(r, t);
    case CConCase(s, alts, d) =>
      RenSize(r, s);
      RenSizeConAlts(r, alts, Ren(r, e).conAlts);
      if d.Some? { RenSize(r, d.value); }
    case CConstCase(s, alts, d) =>
      RenSize(r, s);
      RenSizeConstAlts(r, alts, Ren(r, e).constAlts);
      if d.Some? { RenSize(r, d.value); }
    case CPrimVal(_) =>
    case CErased =>
    case CCrash(_) =>
  }

  lemma {:induction false} RenSizeList(r: Renaming, es: seq<CExp>, rs: seq<CExp>)
    requires |rs| == |es| && forall i :: 0 <= i < |es| ==> rs[i] == Ren(r, es[i])
    ensures SizeList(rs) == SizeList(es)
    decreases es
  {
    if es != [] {
      RenSize(r, es[0]);
      RenSizeList(r, es[1..], rs[1..]);
    }
  }

  lemma {:induction false} RenSizeConAlts(r: Renaming, alts: seq<CConAlt>, rs: seq<CConAlt>)
    requires |rs| == |alts|
    requires forall i :: 0 <= i < |alts| ==> rs[i].body == Ren(Up(|alts[i].args|, r), alts[i].body)
    ensures SizeConAlts(rs) == SizeConAlts(alts)
    decreases alts
  {
    if alts != [] {
      RenSize(Up(|alts[0].args|, r), alts[0].body);
      RenSizeConAlts(r, alts[1..], rs[1..]);
    }
  }

  lemma {:induction false} RenSizeConstAlts(r: Renaming, alts: seq<CConstAlt>, rs: seq<CConstAlt>)
    requires |rs| == |alts|
    requires forall i :: 0 <= i < |alts| ==> rs[i].body == Ren(r, alts[i].body)
    ensures SizeConstAlts(rs) == SizeConstAlts(alts)
    decreases alts
  {
    if alts != [] {
      assert (alts decreases to alts[0]);
      RenSize(r, alts[0].body);
      RenSizeConstAlts(r, alts[1..], rs[1..]);
    }
  }

  lemma WeakenScopedSize(e: CExp, n: nat)
    requires Scoped(e, n)
    ensures Scoped(Weaken(1, e), n + 1) && Size(Weaken(1, e)) == Size(e)
  {
    InsertNamesIsRen(0, 1, n, e);
    RenScoped(Insertion(0, 1, n), e, n + 1);
    RenSize(Insertion(0, 1, n), e);
  }

  // ----- Used variables -----

  type Used = seq<bool>

  function InitUsed(n: nat): Used { seq(n, _ => false) }

  function WeakenUsed(k: nat, u: Used): Used { seq(k, _ => false) + u }

  function ContractUsed(u: Used): Used
    requires u != []
  {
    u[1..]
  }

  function ContractUsedMany(k: nat, u: Used): (r: Used)
    requires k <= |u|
    ensures r == u[k..]
  {
    if k == 0 then u else ContractUsedMany(k - 1, ContractUsed(u))
  }

  function MarkUsed(i: nat, u: Used): Used
    requires i < |u|
  {
    u[i := true]
  }

  function GetUnused(u: Used): (r: seq<bool>)
    ensures |r| == |u| && forall i :: 0 <= i < |u| ==> r[i] == !u[i]
  {
    seq(|u|, i requires 0 <= i < |u| => !u[i])
  }

  function UsedVars(u: Used, l: Lifted): (r: Used)
    requires LScoped(l, |u|)
    ensures |r| == |u|
    decreases l
  {
    match l
    case LLocal(i) => MarkUsed(i, u)
    case LAppName(_, args) => UsedVarsList(u, args)
    case LUnderApp(_, _, args) => UsedVarsList(u, args)
    case LApp(c, a) => UsedVars(UsedVars(u, a), c)
    case LLet(_, v, b) => UsedVars(ContractUsed(UsedVars(WeakenUsed(1, u), b)), v)
    case LCon(_, _, args) => UsedVarsList(u, args)
    case LOp(_, _, args) => UsedVarsList(u, args)
    case LExtPrim(_, args) => UsedVarsList(u, args)
    case LConCase(s, alts, d) =>
      var defUsed := if d.Some? then UsedVars(u, d.value) else u;
      UsedConAlts(UsedVars(defUsed, s), alts)
    case LConstCase(s, alts, d) =>
      var defUsed := if d.Some? then UsedVars(u, d.value) else u;
      UsedConstAlts(UsedVars(defUsed, s), alts)
    case LPrimVal(_) => u
    case LErased => u
    case LCrash(_) => u
  }

  function UsedVarsList(u: Used, ls: seq<Lifted>): (r: Used)
    requires forall i :: 0 <= i < |ls| ==> LScoped(ls[i], |u|)
    ensures |r| == |u|
    decreases ls
  {
    if ls == [] then u else UsedVarsList(UsedVars(u, ls[0]), ls[1..])
  }

  function UsedConAlts(u: Used, alts: seq<LiftedConAlt>): (r: Used)
    requires forall i :: 0 <= i < |alts| ==> LScoped(alts[i].body, |alts[i].args| + |u|)
    ensures |r| == |u|
    decreases alts
  {
    if alts == [] then u
    else
      var k := |alts[0].args|;
      UsedConAlts(ContractUsedMany(k, UsedVars(WeakenUsed(k, u), alts[0].body)), alts[1..])
  }

  function UsedConstAlts(u: Used, alts: seq<LiftedConstAlt>): (r: Used)
    requires forall i :: 0 <= i < |alts| ==> LScoped(alts[i].body, |u|)
    ensures |r| == |u|
    decreases alts
  {
    if alts == [] then u
    else
      assert (alts decreases to alts[0]);
      UsedConstAlts(UsedVars(u, alts[0].body), alts[1..])
  }

  /** `usedVars` adds exactly the free variables of the term. */
  lemma {:induction false} UsedVarsExact(u: Used, l: Lifted, j: nat)
    requires LScoped(l, |u|) && j < |u|
    ensures UsedVars(u, l)[j] <==> u[j] || Occurs(j, l)
    decreases l
  {
    match l
    case LLocal(_) =>
    case LAppName(_, args) => UsedListExact(u, args, j);
    case LUnderApp(_, _, args) => UsedListExact(u, args, j);
    case LApp(c, a) => UsedVarsExact(u, a, j); UsedVarsExact(UsedVars(u, a), c, j);
    case LLet(_, v, b) =>
      var w := WeakenUsed(1, u);
      UsedVarsExact(w, b, j + 1);
      UsedVarsExact(ContractUsed(UsedVars(w, b)), v, j);
    case LCon(_, _, args) => UsedListExact(u, args, j);
    case LOp(_, _, args) => UsedListExact(u, args, j);
    case LExtPrim(_, args) => UsedListExact(u, args, j);
    case LConCase(_, _, _) => UsedConCaseExact(u, l, j);
    case LConstCase(_, _, _) => UsedConstCaseExact(u, l, j);
    case LPrimVal(_) =>
    case LErased =>
    case LCrash(_) =>
  }

  /** Some alternative mentions variable `j` of the scope around it. */
  predicate OccursInAlts(j: nat, alts: seq<LiftedConAlt>) {
    exists i :: 0 <= i < |alts| && Occurs(|alts[i].args| + j, alts[i].body)
  }

  lemma ConCaseUnfold(u: Used, l: Lifted, j: nat)
    requires LScoped(l, |u|) && j < |u| && l.LConCase?
    ensures Occurs(j, l) <==>
            Occurs(j, l.scr) || OccursInAlts(j, l.conAlts) || (l.def.Some? && Occurs(j, l.def.value))
    ensures LScoped(l.scr, |u|) && (l.def.Some? ==> LScoped(l.def.value, |u|))
    ensures forall i :: 0 <= i < |l.conAlts| ==> LScoped(l.conAlts[i].body, |l.conAlts[i].args| + |u|)
    ensures
      var defUsed := if l.def.Some? then UsedVars(u, l.def.value) else u;
      UsedVars(u, l) == UsedConAlts(UsedVars(defUsed, l.scr), l.conAlts)
  {
  }

  lemma {:induction false} UsedConCaseExact(u: Used, l: Lifted, j: nat)
    requires LScoped(l, |u|) && j < |u| && l.LConCase?
    ensures UsedVars(u, l)[j] <==> u[j] || Occurs(j, l)
    decreases l, 0
  {
    hide Occurs, UsedVars, UsedConAlts, LScoped, OccursInAlts;
    ConCaseUnfold(u, l, j);
    var defUsed := if l.def.Some? then UsedVars(u, l.def.value) else u;
    if l.def.Some? { UsedVarsExact(u, l.def.value, j); }
    UsedVarsExact(defUsed, l.scr, j);
    UsedConAltsExact(UsedVars(defUsed, l.scr), l.conAlts, j);
  }

  lemma {:induction false} UsedConstCaseExact(u: Used, l: Lifted, j: nat)
    requires LScoped(l, |u|) && j < |u| && l.LConstCase?
    ensures UsedVars(u, l)[j] <==> u[j] || Occurs(j, l)
    decreases l, 0
  {
    var defUsed := if l.def.Some? then UsedVars(u, l.def.value) else u;
    if l.def.Some? { UsedVarsExact(u, l.def.value, j); }
    UsedVarsExact(defUsed, l.scr, j);
    UsedConstAltsExact(UsedVars(defUsed, l.scr), l.constAlts, j);
    hide UsedConstAlts;
  }

  lemma {:induction false} UsedListExact(u: Used, ls: seq<Lifted>, j: nat)
    requires forall i :: 0 <= i < |ls| ==> LScoped(ls[i], |u|)
    requires j < |u|
    ensures UsedVarsList(u, ls)[j] <==> u[j] || exists i :: 0 <= i < |ls| && Occurs(j, ls[i])
    decreases ls
  {
    if ls != [] {
      UsedVarsExact(u, ls[0], j);
      UsedListExact(UsedVars(u, ls[0]), ls[1..], j);
      assert forall i :: 0 <= i < |ls| - 1 ==> ls[1..][i] == ls[i + 1];
      assert forall i :: 1 <= i < |ls| ==> ls[i] == ls[1..][i - 1];
    }
  }

  lemma {:induction false} UsedConAltsExact(u: Used, alts: seq<LiftedConAlt>, j: nat)
    requires forall i :: 0 <= i < |alts| ==> LScoped(alts[i].body, |alts[i].args| + |u|)
    requires j < |u|
    ensures UsedConAlts(u, alts)[j] <==> u[j] || OccursInAlts(j, alts)
    decreases alts
  {
    hide Occurs, UsedVars, LScoped;
    if alts != [] {
      var k := |alts[0].args|;
      var w := WeakenUsed(k, u);
      assert (alts decreases to alts[0]);
      UsedVarsExact(w, alts[0].body, k + j);
      var c := ContractUsedMany(k, UsedVars(w, alts[0].body));
      assert c[j] <==> u[j] || Occurs(k + j, alts[0].body);
      UsedConAltsExact(c, alts[1..], j);
      FirstAlt(alts, j);
    }
  }

  lemma FirstAlt(alts: seq<LiftedConAlt>, j: nat)
    requires alts != []
    ensures OccursInAlts(j, alts) <==> Occurs(|alts[0].args| + j, alts[0].body) || OccursInAlts(j, alts[1..])
  {
    hide Occurs;
    if i :| 0 <= i < |alts[1..]| && Occurs(|alts[1..][i].args| + j, alts[1..][i].body) { assert alts[i + 1] == alts[1..][i]; }
    if i :| 0 <= i < |alts| && Occurs(|alts[i].args| + j, alts[i].body) {
      if i > 0 { assert alts[1..][i - 1] == alts[i]; }
    }
  }

  lemma {:induction false} UsedConstAltsExact(u: Used, alts: seq<LiftedConstAlt>, j: nat)
    requires forall i :: 0 <= i < |alts| ==> LScoped(alts[i].body, |u|)
    requires j < |u|
    ensures UsedConstAlts(u, alts)[j] <==>
            u[j] || exists i :: 0 <= i < |alts| && Occurs(j, alts[i].body)
    decreases alts
  {
    if alts != [] {
      assert (alts decreases to alts[0]);
      UsedVarsExact(u, alts[0].body, j);
      UsedConstAltsExact(UsedVars(u, alts[0].body), alts[1..], j);
      assert forall i :: 0 <= i < |alts| - 1 ==> alts[1..][i] == alts[i + 1];
      assert forall i :: 1 <= i < |alts| ==> alts[i] == alts[1..][i - 1];
    }
  }

  // ----- Dropping unused variables -----

  /** The entries of `xs` not marked for dropping. */
  function Dropped<T>(xs: seq<T>, drop: seq<bool>): (r: seq<T>)
    requires |xs| == |drop|
    ensures |r| <= |xs|
  {
    if xs == [] then []
    else if drop[0] then Dropped(xs[1..], drop[1..])
    else [xs[0]] + Dropped(xs[1..], drop[1..])
  }

  /** The index of a variable once the unused ones are gone. `None` is the
      source's internal error, a reference to a variable marked as unused. */
  function DropIdx(outer: nat, unused: seq<bool>, i: nat): Option<nat>
    requires i < outer + |unused|
    decreases outer + |unused|
  {
    if outer == 0 then
      if i == 0 then if unused[0] then None else Some(0)
      else
        var r := DropIdx(0, unused[1..], i - 1);
        if r.Some? && !unused[0] then Some(r.value + 1) else r
    else if i == 0 then Some(0)
    else
      var r := DropIdx(outer - 1, unused, i - 1);
      if r.Some? then Some(r.value + 1) else r
  }

  const INTERNAL_ERROR := "INTERNAL ERROR: Referenced variable marked as unused"

  function DropUnused(outer: nat, unused: seq<bool>, l: Lifted): Lifted
    requires LScoped(l, outer + |unused|)
    decreases l
  {
    match l
    case LLocal(i) =>
      var r := DropIdx(outer, unused, i);
      if r.Some? then LLocal(r.value) else LCrash(INTERNAL_ERROR)
    case LAppName(n, args) =>
      LAppName(n, seq(|args|, i requires 0 <= i < |args| => DropUnused(outer, unused, args[i])))
    case LUnderApp(n, m, args) =>
      LUnderApp(n, m, seq(|args|, i requires 0 <= i < |args| => DropUnused(outer, unused, args[i])))
    case LApp(c, a) => LApp(DropUnused(outer, unused, c), DropUnused(outer, unused, a))
    case LLet(x, v, b) => LLet(x, DropUnused(outer, unused, v), DropUnused(outer + 1, unused, b))
    case LCon(n, t, args) =>
      LCon(n, t, seq(|args|, i requires 0 <= i < |args| => DropUnused(outer, unused, args[i])))
    case LOp(op, k, args) =>
      LOp(op, k, seq(|args|, i requires 0 <= i < |args| => DropUnused(outer, unused, args[i])))
    case LExtPrim(p, args) =>
      LExtPrim(p, seq(|args|, i requires 0 <= i < |args| => DropUnused(outer, unused, args[i])))
    case LConCase(s, alts, d) =>
      LConCase(DropUnused(outer, unused, s),
               seq(|alts|, i requires 0 <= i < |alts| =>
                 alts[i].(body := DropUnused(|alts[i].args| + outer, unused, alts[i].body))),
               if d.Some? then Some(DropUnused(outer, unused, d.value)) else None)
    case LConstCase(s, alts, d) =>
      LConstCase(DropUnused(outer, unused, s),
                 seq(|alts|, i requires 0 <= i < |alts| =>
                   alts[i].(body := DropUnused(outer, unused, alts[i].body))),
                 if d.Some? then Some(DropUnused(outer, unused, d.value)) else None)
    case LPrimVal(_) => l
    case LErased => l
    case LCrash(_) => l
  }

  // ----- Lifting -----

  function ShowInt(i: int): string
    decreases if i < 0 then 1 - i else i
  {
    if i < 0 then "-" + ShowInt(-i)
    else if i < 10 then ["0123456789"[i]]
    else ShowInt(i / 10) + ["0123456789"[i % 10]]
  }

  function DisplayUserName(u: UserName): string {
    match u
    case Basic(s) => s
    case Field(f) => f
    case Underscore => "_"
  }

  const OP_CHARS := ":!#$%&*+./<=>?@\\^|-~"

  function ShowName(n: Name): string {
    match n
    case NS(ns, UN(Field(f))) => ns + ".(." + f + ")"
    case NS(ns, UN(Basic(s))) =>
      if exists i :: 0 <= i < |s| && s[i] in OP_CHARS then ns + ".(" + s + ")" else ns + "." + s
    case NS(ns, m) => ns + "." + ShowName(m)
    case UN(Field(f)) => "." + f
    case UN(u) => DisplayUserName(u)
    case MN(r, i) => "{" + r + ":" + ShowInt(i) + "}"
    case PV(m, d) => "{P:" + ShowName(m) + ":" + ShowInt(d) + "}"
    case DN(s, _) => s
    case Nested(o, i, m) => ShowInt(o) + ":" + ShowInt(i) + ":" + ShowName(m)
    case CaseBlock(o, _) => "case block in " + o
    case WithBlock(o, _) => "with block in " + o
    case Resolved(i) => "$resolved" + ShowInt(i)
  }

  /** The name of the `i`th function lifted out of `b`. */
  function MkName(b: Name, i: int): Name {
    match b
    case NS(ns, m) => NS(ns, MkName(m, i))
    case UN(u) => MN(DisplayUserName(u), i)
    case DN(_, m) => MkName(m, i)
    case CaseBlock(o, inner) => MN("case block in " + o + " (" + ShowInt(inner) + ")", i)
    case WithBlock(o, inner) => MN("with block in " + o + " (" + ShowInt(inner) + ")", i)
    case _ => MN(ShowName(b), i)
  }

  lemma MkNameInjective(b: Name, i: int, j: int)
    requires MkName(b, i) == MkName(b, j)
    ensures i == j
  {
  }

  type Defs = seq<(Name, LiftedDef)>

  /** A lifted piece of syntax, the definitions made on the way (newest first)
      and the next free name index. */
  datatype Res<T> = Res(out: T, defs: Defs, next: int)

  function Unload(f: Lifted, args: seq<Lifted>): (r: Lifted)
    decreases |args|
  {
    if args == [] then f else Unload(LApp(f, args[0]), args[1..])
  }

  lemma {:induction false} UnloadScoped(f: Lifted, args: seq<Lifted>, n: nat)
    requires LScoped(f, n) && forall i :: 0 <= i < |args| ==> LScoped(args[i], n)
    ensures LScoped(Unload(f, args), n)
    decreases |args|
  {
    if args != [] { UnloadScoped(LApp(f, args[0]), args[1..], n); }
  }

  /** The variables of `vs` that are kept, as arguments; `seen` variables come before. */
  function AllVars(seen: nat, vs: Scope, unused: seq<bool>): (r: seq<Lifted>)
    requires |vs| == |unused|
    ensures forall i :: 0 <= i < |r| ==> LScoped(r[i], seen + |vs|)
    decreases |vs|
  {
    if vs == [] then []
    else if unused[0] then AllVars(seen + 1, vs[1..], unused[1..])
    else [LLocal(seen)] + AllVars(seen + 1, vs[1..], unused[1..])
  }

  /** What the body of a new function does not use of the enclosing scope. */
  function UnusedIn(bound: nat, n: nat, scl: Lifted): (r: seq<bool>)
    requires LScoped(scl, bound + n)
    ensures |r| == n
  {
    GetUnused(ContractUsedMany(bound, UsedVars(InitUsed(bound + n), scl)))
  }

  function MakeLam(b: Name, vars: Scope, bound: Scope, k: int, e: CExp): (r: Res<Lifted>)
    requires Scoped(e, |bound| + |vars|)
    ensures LScoped(r.out, |vars|)
    decreases Size(e), 1
  {
    if e.CLam? then MakeLam(b, vars, [e.x] + bound, k, e.body)
    else
      var r := LiftExp(b, bound + vars, k, e);
      var unused := UnusedIn(|bound|, |vars|, r.out);
      var def := MkLFun(Dropped(vars, unused), bound, DropUnused(|bound|, unused, r.out));
      var n := MkName(b, r.next);
      Res(LUnderApp(n, |bound|, AllVars(0, vars, unused)), [(n, def)] + r.defs, r.next + 1)
  }

  function LiftExp(b: Name, vars: Scope, k: int, e: CExp): (r: Res<Lifted>)
    requires Scoped(e, |vars|)
    ensures LScoped(r.out, |vars|)
    decreases Size(e), 0
  {
    match e
    case CLocal(i) => Res(LLocal(i), [], k)
    case CRef(n) => Res(LAppName(n, []), [], k)
    case CLam(x, sc) => MakeLam(b, vars, [x], k, sc)
    case CLet(x, _, v, sc) => LiftLet(b, vars, k, x, v, sc)
    case CApp(f, args) => LiftApp(b, vars, k, f, args)
    case CCon(n, t, args) =>
      var as' := LiftList(b, vars, k, args);
      Res(LCon(n, t, as'.out), as'.defs, as'.next)
    case COp(op, arity, args) =>
      var as' := LiftList(b, vars, k, args);
      Res(LOp(op, arity, as'.out), as'.defs, as'.next)
    case CExtPrim(p, args) =>
      var as' := LiftList(b, vars, k, args);
      Res(LExtPrim(p, as'.out), as'.defs, as'.next)
    case CForce(_, t) => LiftApp(b, vars, k, t, [CErased])
    case CDelay(_, t) =>
      WeakenScopedSize(t, |vars|);
      MakeLam(b, vars, [MN("act", 0)], k, Weaken(1, t))
    case CConCase(s, alts, d) => LiftConCase(b, vars, k, s, alts, d)
    case CConstCase(s, alts, d) => LiftConstCase(b, vars, k, s, alts, d)
    case CPrimVal(c) => Res(LPrimVal(c), [], k)
    case CErased => Res(LErased, [], k)
    case CCrash(m) => Res(LCrash(m), [], k)
  }

  function LiftLet(b: Name, vars: Scope, k: int, x: Name, v: CExp, sc: CExp): (r: Res<Lifted>)
    requires Scoped(v, |vars|) && Scoped(sc, |vars| + 1)
    ensures LScoped(r.out, |vars|)
    decreases Size(v) + Size(sc), 1
  {
    var v' := LiftExp(b, vars, k, v);
    var sc' := LiftExp(b, [x] + vars, v'.next, sc);
    Res(LLet(x, v'.out, sc'.out), sc'.defs + v'.defs, sc'.next)
  }

  function LiftApp(b: Name, vars: Scope, k: int, f: CExp, args: seq<CExp>): (r: Res<Lifted>)
    requires Scoped(f, |vars|) && forall i :: 0 <= i < |args| ==> Scoped(args[i], |vars|)
    ensures LScoped(r.out, |vars|)
    decreases Size(f) + SizeList(args), 1
  {
    if f.CRef? then
      var as' := LiftList(b, vars, k, args);
      Res(LAppName(f.n, as'.out), as'.defs, as'.next)
    else
      var f' := LiftExp(b, vars, k, f);
      var as' := LiftList(b, vars, f'.next, args);
      UnloadScoped(f'.out, as'.out, |vars|);
      Res(Unload(f'.out, as'.out), as'.defs + f'.defs, as'.next)
  }

  function LiftConCase(b: Name, vars: Scope, k: int, s: CExp, alts: seq<CConAlt>, d: Option<CExp>)
    : (r: Res<Lifted>)
    requires Scoped(s, |vars|) && (d.Some? ==> Scoped(d.value, |vars|))
    requires forall i :: 0 <= i < |alts| ==> Scoped(alts[i].body, |alts[i].args| + |vars|)
    ensures LScoped(r.out, |vars|)
    decreases Size(s) + SizeConAlts(alts) + (if d.Some? then Size(d.value) else 0), 2
  {
    var s' := LiftExp(b, vars, k, s);
    var alts' := LiftConAlts(b, vars, s'.next, alts);
    var d' := LiftOpt(b, vars, alts'.next, d);
    Res(LConCase(s'.out, alts'.out, d'.out), d'.defs + alts'.defs + s'.defs, d'.next)
  }

  function LiftConstCase(b: Name, vars: Scope, k: int, s: CExp, alts: seq<CConstAlt>, d: Option<CExp>)
    : (r: Res<Lifted>)
    requires Scoped(s, |vars|) && (d.Some? ==> Scoped(d.value, |vars|))
    requires forall i :: 0 <= i < |alts| ==> Scoped(alts[i].body, |vars|)
    ensures LScoped(r.out, |vars|)
    decreases Size(s) + SizeConstAlts(alts) + (if d.Some? then Size(d.value) else 0), 2
  {
    var s' := LiftExp(b, vars, k, s);
    var alts' := LiftConstAlts(b, vars, s'.next, alts);
    var d' := LiftOpt(b, vars, alts'.next, d);
    Res(LConstCase(s'.out, alts'.out, d'.out), d'.defs + alts'.defs + s'.defs, d'.next)
  }

  function LiftList(b: Name, vars: Scope, k: int, es: seq<CExp>): (r: Res<seq<Lifted>>)
    requires forall i :: 0 <= i < |es| ==> Scoped(es[i], |vars|)
    ensures |r.out| == |es| && forall i :: 0 <= i < |es| ==> LScoped(r.out[i], |vars|)
    decreases SizeList(es), 0
  {
    if es == [] then Res([], [], k)
    else
      var h := LiftExp(b, vars, k, es[0]);
      var t := LiftList(b, vars, h.next, es[1..]);
      Res([h.out] + t.out, t.defs + h.defs, t.next)
  }

  function LiftConAlts(b: Name, vars: Scope, k: int, alts: seq<CConAlt>): (r: Res<seq<LiftedConAlt>>)
    requires forall i :: 0 <= i < |alts| ==> Scoped(alts[i].body, |alts[i].args| + |vars|)
    ensures |r.out| == |alts|
    ensures forall i :: 0 <= i < |r.out| ==> LScoped(r.out[i].body, |r.out[i].args| + |vars|)
    decreases SizeConAlts(alts), 0
  {
    if alts == [] then Res([], [], k)
    else
      var a := alts[0];
      var h := LiftExp(b, a.args + vars, k, a.body);
      var t := LiftConAlts(b, vars, h.next, alts[1..]);
      Res([MkLConAlt(a.con, a.tag, a.args, h.out)] + t.out, t.defs + h.defs, t.next)
  }

  function LiftConstAlts(b: Name, vars: Scope, k: int, alts: seq<CConstAlt>): (r: Res<seq<LiftedConstAlt>>)
    requires forall i :: 0 <= i < |alts| ==> Scoped(alts[i].body, |vars|)
    ensures |r.out| == |alts|
    ensures forall i :: 0 <= i < |alts| ==> LScoped(r.out[i].body, |vars|)
    decreases SizeConstAlts(alts), 0
  {
    if alts == [] then Res([], [], k)
    else
      var h := LiftExp(b, vars, k, alts[0].body);
      var t := LiftConstAlts(b, vars, h.next, alts[1..]);
      Res([MkLConstAlt(alts[0].c, h.out)] + t.out, t.defs + h.defs, t.next)
  }

  function LiftOpt(b: Name, vars: Scope, k: int, d: Option<CExp>): (r: Res<Option<Lifted>>)
    requires d.Some? ==> Scoped(d.value, |vars|)
    ensures r.out.Some? <==> d.Some?
    ensures d.Some? ==> LScoped(r.out.value, |vars|)
    decreases if d.Some? then Size(d.value) else 0, 1
  {
    if d.None? then Res(None, [], k)
    else
      var h := LiftExp(b, vars, k, d.value);
      Res(Some(h.out), h.defs, h.next)
  }

  predicate ScopedDef(d: CDef) {
    match d
    case MkFun(args, body) => Scoped(body, |args|)
    case MkError(expl) => Scoped(expl, 0)
    case _ => true
  }

  /** The definitions a top-level definition lifts to, itself first. */
  function LambdaLiftDef(n: Name, d: CDef): (r: Defs)
    requires ScopedDef(d)
  {
    match d
    case MkFun(args, body) =>
      var l := LiftExp(n, args, 0, body);
      [(n, MkLFun(args, [], l.out))] + l.defs
    case MkCon(t, a) => [(n, MkLCon(t, a))]
    case MkForeign(a) => [(n, MkLForeign(a))]
    case MkError(expl) =>
      var l := LiftExp(n, [], 0, expl);
      [(n, MkLError(l.out))] + l.defs
  }
}

/** `CExp`, the untyped lambda calculus handed to the back end
    (Core/CompileExpr.idr), with de Bruijn indices as plain numbers. A scope of
    `n` variables is the index range 0..n, most recently bound first. */
module CExpSyntax {
  import opened Base

  datatype LazyReason = LInf | LLazy | LUnknown

  datatype CExp =
    | CLocal(i: nat)
    | CRef(n: Name)
    | CLam(x: Name, body: CExp)
    | CLet(lx: Name, inl: bool, val: CExp, sc: CExp)
    | CApp(f: CExp, args: seq<CExp>)
    | CCon(con: Name, tag: Option<int>, args: seq<CExp>)
    | COp(op: string, arity: nat, args: seq<CExp>)
    | CExtPrim(p: Name, args: seq<CExp>)
    | CForce(reason: LazyReason, tm: CExp)
    | CDelay(reason: LazyReason, tm: CExp)
    | CConCase(scr: CExp, conAlts: seq<CConAlt>, def: Option<CExp>)
    | CConstCase(scr: CExp, constAlts: seq<CConstAlt>, def: Option<CExp>)
    | CPrimVal(c: Constant)
    | CErased
    | CCrash(msg: string)

  datatype CConAlt = MkConAlt(con: Name, tag: Option<int>, args: Scope, body: CExp)

  datatype CConstAlt = MkConstAlt(c: Constant, body: CExp)

  datatype CDef =
    | MkFun(args: Scope, body: CExp)
    | MkCon(tag: Option<int>, arity: nat)
    | MkForeign(arity: nat)
    | MkError(expl: CExp)

  /** The typing discipline of the source: every index is in scope and every
      operator has exactly its arity in operands. */
  predicate Scoped(e: CExp, n: nat) {
    match e
    case CLocal(i) => i < n
    case CRef(_) => true
    case CLam(_, b) => Scoped(b, n + 1)
    case CLet(_, _, v, s) => Scoped(v, n) && Scoped(s, n + 1)
    case CApp(f, args) => Scoped(f, n) && forall i :: 0 <= i < |args| ==> Scoped(args[i], n)
    case CCon(_, _, args) => forall i :: 0 <= i < |args| ==> Scoped(args[i], n)
    case COp(_, arity, args) =>
      |args| == arity && forall i :: 0 <= i < |args| ==> Scoped(args[i], n)
    case CExtPrim(_, args) => forall i :: 0 <= i < |args| ==> Scoped(args[i], n)
    case CForce(_, t) => Scoped(t, n)
    case CDelay(_, t) => Scoped(t, n)
    case CConCase(s, alts, d) =>
      Scoped(s, n) &&
      (forall i :: 0 <= i < |alts| ==> Scoped(alts[i].body, |alts[i].args| + n)) &&
      (d.Some? ==> Scoped(d.value, n))
    case CConstCase(s, alts, d) =>
      Scoped(s, n) &&
      (forall i :: 0 <= i < |alts| ==> Scoped(alts[i].body, n)) &&
      (d.Some? ==> Scoped(d.value, n))
    case CPrimVal(_) => true
    case CErased => true
    case CCrash(_) => true
  }

  // ----- Renamings -----

  /** A renaming sends index `i` of one scope to index `r[i]` of another. */
  type Renaming = seq<nat>

  /** The renaming under `n` further binders. */
  function Up(n: nat, r: Renaming): (u: Renaming)
    ensures |u| == n + |r|
    ensures forall i :: 0 <= i < n ==> u[i] == i
    ensures forall i :: n <= i < n + |r| ==> u[i] == r[i - n] + n
  {
    seq(n, i => i) + seq(|r|, i requires 0 <= i < |r| => r[i] + n)
  }

  function Ren(r: Renaming, e: CExp): CExp
    decreases e
  {
    match e
    case CLocal(i) => if i < |r| then CLocal(r[i]) else e
    case CRef(_) => e
    case CLam(x, b) => CLam(x, Ren(Up(1, r), b))
    case CLet(x, inl, v, s) => CLet(x, inl, Ren(r, v), Ren(Up(1, r), s))
    case CApp(f, args) =>
      CApp(Ren(r, f), seq(|args|, i requires 0 <= i < |args| => Ren(r, args[i])))
    case CCon(n, t, args) =>
      CCon(n, t, seq(|args|, i requires 0 <= i < |args| => Ren(r, args[i])))
    case COp(op, arity, args) =>
      COp(op, arity, seq(|args|, i requires 0 <= i < |args| => Ren(r, args[i])))
    case CExtPrim(p, args) =>
      CExtPrim(p, seq(|args|, i requires 0 <= i < |args| => Ren(r, args[i])))
    case CForce(lr, t) => CForce(lr, Ren(r, t))
    case CDelay(lr, t) => CDelay(lr, Ren(r, t))
    case CConCase(s, alts, d) =>
      CConCase(Ren(r, s),
               seq(|alts|, i requires 0 <= i < |alts| =>
                 alts[i].(body := Ren(Up(|alts[i].args|, r), alts[i].body))),
               if d.Some? then Some(Ren(r, d.value)) else None)
    case CConstCase(s, alts, d) =>
      CConstCase(Ren(r, s),
                 seq(|alts|, i requires 0 <= i < |alts| =>
                   alts[i].(body := Ren(r, alts[i].body))),
                 if d.Some? then Some(Ren(r, d.value)) else None)
    case CPrimVal(_) => e
    case CErased => e
    case CCrash(_) => e
  }

  predicate Into(r: Renaming, m: nat) {
    forall i :: 0 <= i < |r| ==> r[i] < m
  }

  lemma {:induction false} RenScoped(r: Renaming, e: CExp, m: nat)
    requires Scoped(e, |r|) && Into(r, m)
    ensures Scoped(Ren(r, e), m)
    decreases e
  {
    match e
    case CLocal(_) =>
    case CRef(_) =>
    case CLam(_, b) => RenScoped(Up(1, r), b, m + 1);
    case CLet(_, _, v, s) =>
      RenScoped(r, v, m);
      RenScoped(Up(1, r), s, m + 1);
    case CApp(f, args) =>
      RenScoped(r, f, m);
      forall i | 0 <= i < |args| { RenScoped(r, args[i], m); }
    case CCon(_, _, args) =>
      forall i | 0 <= i < |args| { RenScoped(r, args[i], m); }
    case COp(_, _, args) =>
      forall i | 0 <= i < |args| { RenScoped(r, args[i], m); }
    case CExtPrim(_, args) =>
      forall i | 0 <= i < |args| { RenScoped(r, args[i], m); }
    case CForce(_, t) => RenScoped(r, t, m);
    case CDelay(_, t) => RenScoped(r, t, m);
    case CConCase(_, _, _) => RenScopedCon(r, e, m);
    case CConstCase(s, alts, d) =>
      RenScoped(r, s, m);
      forall i | 0 <= i < |alts| { RenScoped(r, alts[i].body, m); }
      if d.Some? { RenScoped(r, d.value, m); }
    case CPrimVal(_) =>
    case CErased =>
    case CCrash(_) =>
  }

  lemma {:induction false} RenScopedCon(r: Renaming, e: CExp, m: nat)
    requires Scoped(e, |r|) && Into(r, m) && e.CConCase?
    ensures Scoped(Ren(r, e), m)
    decreases e, 0
  {
    var alts := e.conAlts;
    RenScoped(r, e.scr, m);
    if e.def.Some? { RenScoped(r, e.def.value, m); }
    forall i | 0 <= i < |alts| ensures Scoped(Ren(r, e).conAlts[i].body, |alts[i].args| + m) {
      assert (alts decreases to alts[i]);
      RenScoped(Up(|alts[i].args|, r), alts[i].body, |alts[i].args| + m);
    }
  }

  function Compose(q: Renaming, r: Renaming): (c: Renaming)
    requires Into(r, |q|)
    ensures |c| == |r| && forall i :: 0 <= i < |r| ==> c[i] == q[r[i]]
  {
    seq(|r|, i requires 0 <= i < |r| => q[r[i]])
  }

  lemma UpCompose(n: nat, q: Renaming, r: Renaming)
    requires Into(r, |q|)
    ensures Into(Up(n, r), |Up(n, q)|)
    ensures Compose(Up(n, q), Up(n, r)) == Up(n, Compose(q, r))
  {
  }

  /** Renaming twice is renaming once by the composition. */
  lemma {:induction false} RenCompose(q: Renaming, r: Renaming, e: CExp)
    requires Scoped(e, |r|) && Into(r, |q|)
    ensures Ren(q, Ren(r, e)) == Ren(Compose(q, r), e)
    decreases e
  {
    UpCompose(1, q, r);
    match e
    case CLocal(_) =>
    case CRef(_) =>
    case CLam(_, b) => RenCompose(Up(1, q), Up(1, r), b);
    case CLet(_, _, v, s) =>
      RenCompose(q, r, v);
      RenCompose(Up(1, q), Up(1, r), s);
    case CApp(f, args) =>
      RenCompose(q, r, f);
      forall i | 0 <= i < |args| { RenCompose(q, r, args[i]); }
    case CCon(_, _, args) =>
      forall i | 0 <= i < |args| { RenCompose(q, r, args[i]); }
    case COp(_, _, args) =>
      forall i | 0 <= i < |args| { RenCompose(q, r, args[i]); }
    case CExtPrim(_, args) =>
      forall i | 0 <= i < |args| { RenCompose(q, r, args[i]); }
    case CForce(_, t) => RenCompose(q, r, t);
    case CDelay(_, t) => RenCompose(q, r, t);
    case CConCase(_, _, _) => RenComposeCon(q, r, e);
    case CConstCase(_, _, _) => RenComposeConst(q, r, e);
    case CPrimVal(_) =>
    case CErased =>
    case CCrash(_) =>
  }

  lemma {:induction false} RenComposeCon(q: Renaming, r: Renaming, e: CExp)
    requires Scoped(e, |r|) && Into(r, |q|) && e.CConCase?
    ensures Ren(q, Ren(r, e)) == Ren(Compose(q, r), e)
    decreases e, 0
  {
    var alts := e.conAlts;
    RenCompose(q, r, e.scr);
    if e.def.Some? { RenCompose(q, r, e.def.value); }
    var ts, us := Ren(q, Ren(r, e)).conAlts, Ren(Compose(q, r), e).conAlts;
    forall i | 0 <= i < |alts| ensures ts[i] == us[i] {
      assert (alts decreases to alts[i]);
      UpCompose(|alts[i].args|, q, r);
      RenCompose(Up(|alts[i].args|, q), Up(|alts[i].args|, r), alts[i].body);
    }
    SeqEq(ts, us);
  }

  lemma {:induction false} RenComposeConst(q: Renaming, r: Renaming, e: CExp)
    requires Scoped(e, |r|) && Into(r, |q|) && e.CConstCase?
    ensures Ren(q, Ren(r, e)) == Ren(Compose(q, r), e)
    decreases e, 0
  {
    var alts := e.constAlts;
    RenCompose(q, r, e.scr);
    if e.def.Some? { RenCompose(q, r, e.def.value); }
    var ts, us := Ren(q, Ren(r, e)).constAlts, Ren(Compose(q, r), e).constAlts;
    forall i | 0 <= i < |alts| ensures ts[i] == us[i] {
      assert (alts decreases to alts[i]);
      RenCompose(q, r, alts[i].body);
    }
    SeqEq(ts, us);
  }

  function Identity(n: nat): (r: Renaming)
    ensures |r| == n && forall i :: 0 <= i < n ==> r[i] == i
  {
    seq(n, i => i)
  }

  lemma UpIdentity(n: nat, m: nat)
    ensures Up(n, Identity(m)) == Identity(n + m)
  {
  }

  lemma {:induction false} RenIdentity(e: CExp, n: nat)
    requires Scoped(e, n)
    ensures Ren(Identity(n), e) == e
    decreases e
  {
    UpIdentity(1, n);
    match e
    case CLocal(_) =>
    case CRef(_) =>
    case CLam(_, b) => RenIdentity(b, n + 1);
    case CLet(_, _, v, s) =>
      RenIdentity(v, n);
      RenIdentity(s, n + 1);
    case CApp(f, args) =>
      RenIdentity(f, n);
      forall i | 0 <= i < |args| { RenIdentity(args[i], n); }
    case CCon(_, _, args) =>
      forall i | 0 <= i < |args| { RenIdentity(args[i], n); }
    case COp(_, _, args) =>
      forall i | 0 <= i < |args| { RenIdentity(args[i], n); }
    case CExtPrim(_, args) =>
      forall i | 0 <= i < |args| { RenIdentity(args[i], n); }
    case CForce(_, t) => RenIdentity(t, n);
    case CDelay(_, t) => RenIdentity(t, n);
    case CConCase(s, alts, d) =>
      RenIdentity(s, n);
      forall i | 0 <= i < |alts|
        ensures Ren(Identity(n), e).conAlts[i] == alts[i]
      {
        UpIdentity(|alts[i].args|, n);
        RenIdentity(alts[i].body, |alts[i].args| + n);
      }
      if d.Some? { RenIdentity(d.value, n); }
    case CConstCase(s, alts, d) =>
      RenIdentity(s, n);
      forall i | 0 <= i < |alts| { RenIdentity(alts[i].body, n); }
      if d.Some? { RenIdentity(d.value, n); }
    case CPrimVal(_) =>
    case CErased =>
    case CCrash(_) =>
  }

  // ----- Traversals -----

  /** The traversal shared by `insertNames`, `shiftBinder`, `substEnv` and
      `mkLocals`: rebuild a term, replacing each local and each global reference,
      given the number `d` of variables currently bound in front. */
  function Traverse(d: nat, lv: (nat, nat) -> CExp, rf: (nat, Name) -> CExp, e: CExp): CExp
    decreases e
  {
    match e
    case CLocal(i) => lv(d, i)
    case CRef(n) => rf(d, n)
    case CLam(x, b) => CLam(x, Traverse(d + 1, lv, rf, b))
    case CLet(x, inl, v, s) => CLet(x, inl, Traverse(d, lv, rf, v), Traverse(d + 1, lv, rf, s))
    case CApp(f, args) =>
      CApp(Traverse(d, lv, rf, f),
           seq(|args|, i requires 0 <= i < |args| => Traverse(d, lv, rf, args[i])))
    case CCon(n, t, args) =>
      CCon(n, t, seq(|args|, i requires 0 <= i < |args| => Traverse(d, lv, rf, args[i])))
    case COp(op, arity, args) =>
      COp(op, arity, seq(|args|, i requires 0 <= i < |args| => Traverse(d, lv, rf, args[i])))
    case CExtPrim(p, args) =>
      CExtPrim(p, seq(|args|, i requires 0 <= i < |args| => Traverse(d, lv, rf, args[i])))
    case CForce(lr, t) => CForce(lr, Traverse(d, lv, rf, t))
    case CDelay(lr, t) => CDelay(lr, Traverse(d, lv, rf, t))
    case CConCase(s, alts, df) =>
      CConCase(Traverse(d, lv, rf, s),
               seq(|alts|, i requires 0 <= i < |alts| =>
                 alts[i].(body := Traverse(|alts[i].args| + d, lv, rf, alts[i].body))),
               if df.Some? then Some(Traverse(d, lv, rf, df.value)) else None)
    case CConstCase(s, alts, df) =>
      CConstCase(Traverse(d, lv, rf, s),
                 seq(|alts|, i requires 0 <= i < |alts| =>
                   alts[i].(body := Traverse(d, lv, rf, alts[i].body))),
                 if df.Some? then Some(Traverse(d, lv, rf, df.value)) else None)
    case CPrimVal(_) => e
    case CErased => e
    case CCrash(_) => e
  }

  /** `lv` renames a scope of `m + |r|` variables below `d0 + m` binders by `Up(m, r)`,
      for every `m`. */
  ghost predicate Renames(d0: nat, lv: (nat, nat) -> CExp, r: Renaming) {
    forall m: nat, i: nat :: i < m + |r| ==> lv(d0 + m, i) == CLocal(Up(m, r)[i])
  }

  lemma RenamesUp(k: nat, d0: nat, lv: (nat, nat) -> CExp, r: Renaming)
    requires Renames(d0, lv, r)
    ensures Renames(k + d0, lv, Up(k, r))
  {
    forall m: nat, i: nat | i < m + |Up(k, r)|
      ensures lv(k + d0 + m, i) == CLocal(Up(m, Up(k, r))[i])
    {
      assert lv(d0 + (k + m), i) == CLocal(Up(k + m, r)[i]);
    }
  }

  /** Some global reference in `e` is to one of `bad`. */
  predicate Mentions(bad: set<Name>, e: CExp)
    decreases e
  {
    match e
    case CLocal(_) => false
    case CRef(n) => n in bad
    case CLam(_, b) => Mentions(bad, b)
    case CLet(_, _, v, s) => Mentions(bad, v) || Mentions(bad, s)
    case CApp(f, args) => Mentions(bad, f) || exists i :: 0 <= i < |args| && Mentions(bad, args[i])
    case CCon(_, _, args) => exists i :: 0 <= i < |args| && Mentions(bad, args[i])
    case COp(_, _, args) => exists i :: 0 <= i < |args| && Mentions(bad, args[i])
    case CExtPrim(_, args) => exists i :: 0 <= i < |args| && Mentions(bad, args[i])
    case CForce(_, t) => Mentions(bad, t)
    case CDelay(_, t) => Mentions(bad, t)
    case CConCase(s, alts, d) =>
      Mentions(bad, s) || (exists i :: 0 <= i < |alts| && Mentions(bad, alts[i].body)) ||
      (d.Some? && Mentions(bad, d.value))
    case CConstCase(s, alts, d) =>
      Mentions(bad, s) || (exists i :: 0 <= i < |alts| && Mentions(bad, alts[i].body)) ||
      (d.Some? && Mentions(bad, d.value))
    case CPrimVal(_) => false
    case CErased => false
    case CCrash(_) => false
  }

  lemma {:induction bad, e} MentionsNothing(bad: set<Name>, e: CExp)
    requires bad == {}
    ensures !Mentions(bad, e)
  {
  }

  /** `rf` keeps references except those to `bad`. */
  ghost predicate Keeps(rf: (nat, Name) -> CExp, bad: set<Name>) {
    forall d: nat, n :: rf(d, n) == CRef(n) <==> n !in bad
  }

  /** A traversal that renames the locals is a renaming of the whole term exactly
      when it keeps the term's references. */
  lemma {:induction false} TraverseRenIff(d: nat, lv: (nat, nat) -> CExp, rf: (nat, Name) -> CExp,
                                          bad: set<Name>, r: Renaming, e: CExp)
    requires Scoped(e, |r|) && Renames(d, lv, r) && Keeps(rf, bad)
    ensures Traverse(d, lv, rf, e) == Ren(r, e) <==> !Mentions(bad, e)
    decreases e
  {
    match e
    case CLocal(i) => assert lv(d + 0, i) == CLocal(Up(0, r)[i]);
    case CRef(_) =>
    case CLam(_, b) =>
      RenamesUp(1, d, lv, r);
      TraverseRenIff(d + 1, lv, rf, bad, Up(1, r), b);
    case CLet(_, _, v, s) =>
      RenamesUp(1, d, lv, r);
      TraverseRenIff(d, lv, rf, bad, r, v);
      TraverseRenIff(d + 1, lv, rf, bad, Up(1, r), s);
    case CApp(f, args) =>
      TraverseRenIff(d, lv, rf, bad, r, f);
      TraverseRenAll(d, lv, rf, bad, r, args, Traverse(d, lv, rf, e).args, Ren(r, e).args);
    case CCon(_, _, args) =>
      TraverseRenAll(d, lv, rf, bad, r, args, Traverse(d, lv, rf, e).args, Ren(r, e).args);
    case COp(_, _, args) =>
      TraverseRenAll(d, lv, rf, bad, r, args, Traverse(d, lv, rf, e).args, Ren(r, e).args);
    case CExtPrim(_, args) =>
      TraverseRenAll(d, lv, rf, bad, r, args, Traverse(d, lv, rf, e).args, Ren(r, e).args);
    case CForce(_, t) => TraverseRenIff(d, lv, rf, bad, r, t);
    case CDelay(_, t) => TraverseRenIff(d, lv, rf, bad, r, t);
    case CConCase(s, alts, df) => TraverseRenCon(d, lv, rf, bad, r, e);
    case CConstCase(s, alts, df) => TraverseRenConst(d, lv, rf, bad, r, e);
    case CPrimVal(_) =>
    case CErased =>
    case CCrash(_) =>
  }

  lemma SeqEq<T>(s: seq<T>, t: seq<T>)
    requires |s| == |t|
    ensures s == t <==> forall i :: 0 <= i < |s| ==> s[i] == t[i]
  {
  }

  lemma {:induction false} TraverseRenAll(d: nat, lv: (nat, nat) -> CExp, rf: (nat, Name) -> CExp,
                                          bad: set<Name>, r: Renaming, es: seq<CExp>,
                                          ts: seq<CExp>, rs: seq<CExp>)
    requires Renames(d, lv, r) && Keeps(rf, bad) && forall i :: 0 <= i < |es| ==> Scoped(es[i], |r|)
    requires |ts| == |es| && forall i :: 0 <= i < |es| ==> ts[i] == Traverse(d, lv, rf, es[i])
    requires |rs| == |es| && forall i :: 0 <= i < |es| ==> rs[i] == Ren(r, es[i])
    ensures ts == rs <==> !exists i :: 0 <= i < |es| && Mentions(bad, es[i])
    decreases es, 0
  {
    forall i | 0 <= i < |es| ensures Traverse(d, lv, rf, es[i]) == Ren(r, es[i]) <==> !Mentions(bad, es[i]) {
      TraverseRenIff(d, lv, rf, bad, r, es[i]);
    }
    SeqEq(ts, rs);
  }

  lemma {:induction false} TraverseRenAlts(d: nat, lv: (nat, nat) -> CExp, rf: (nat, Name) -> CExp,
                                           bad: set<Name>, r: Renaming, alts: seq<CConAlt>,
                                           ts: seq<CConAlt>, rs: seq<CConAlt>)
    requires Renames(d, lv, r) && Keeps(rf, bad) && forall i :: 0 <= i < |alts| ==> Scoped(alts[i].body, |alts[i].args| + |r|)
    requires |ts| == |alts| && forall i :: 0 <= i < |alts| ==> ts[i] == alts[i].(body := Traverse(|alts[i].args| + d, lv, rf, alts[i].body))
    requires |rs| == |alts| && forall i :: 0 <= i < |alts| ==> rs[i] == alts[i].(body := Ren(Up(|alts[i].args|, r), alts[i].body))
    ensures ts == rs <==> !exists i :: 0 <= i < |alts| && Mentions(bad, alts[i].body)
    decreases alts, 0
  {
    hide Renames, Keeps, Traverse, Ren, Mentions, Scoped;
    forall i | 0 <= i < |alts| ensures ts[i] == rs[i] <==> !Mentions(bad, alts[i].body) {
      assert (alts decreases to alts[i]);
      RenamesUp(|alts[i].args|, d, lv, r);
      TraverseRenIff(|alts[i].args| + d, lv, rf, bad, Up(|alts[i].args|, r), alts[i].body);
    }
    SeqEq(ts, rs);
  }

  lemma ConCaseUnfold(d: nat, lv: (nat, nat) -> CExp, rf: (nat, Name) -> CExp, bad: set<Name>, r: Renaming, e: CExp)
    requires Scoped(e, |r|) && e.CConCase?
    ensures Scoped(e.scr, |r|) && (e.def.Some? ==> Scoped(e.def.value, |r|))
    ensures forall i :: 0 <= i < |e.conAlts| ==> Scoped(e.conAlts[i].body, |e.conAlts[i].args| + |r|)
    ensures
      var t, alts := Traverse(d, lv, rf, e), e.conAlts;
      && t.CConCase? && t.scr == Traverse(d, lv, rf, e.scr) && |t.conAlts| == |alts|
      && (forall i :: 0 <= i < |alts| ==> t.conAlts[i] == alts[i].(body := Traverse(|alts[i].args| + d, lv, rf, alts[i].body)))
      && t.def == if e.def.Some? then Some(Traverse(d, lv, rf, e.def.value)) else None
    ensures
      var t, alts := Ren(r, e), e.conAlts;
      && t.CConCase? && t.scr == Ren(r, e.scr) && |t.conAlts| == |alts|
      && (forall i :: 0 <= i < |alts| ==> t.conAlts[i] == alts[i].(body := Ren(Up(|alts[i].args|, r), alts[i].body)))
      && t.def == if e.def.Some? then Some(Ren(r, e.def.value)) else None
    ensures Mentions(bad, e) <==>
      Mentions(bad, e.scr) || (exists i :: 0 <= i < |e.conAlts| && Mentions(bad, e.conAlts[i].body)) ||
      (e.def.Some? && Mentions(bad, e.def.value))
  {
  }

  lemma {:induction false} TraverseRenCon(d: nat, lv: (nat, nat) -> CExp, rf: (nat, Name) -> CExp,
                                          bad: set<Name>, r: Renaming, e: CExp)
    requires Scoped(e, |r|) && Renames(d, lv, r) && Keeps(rf, bad) && e.CConCase?
    ensures Traverse(d, lv, rf, e) == Ren(r, e) <==> !Mentions(bad, e)
    decreases e, 0
  {
    hide Renames, Keeps, Traverse, Ren, Mentions, Scoped;
    ConCaseUnfold(d, lv, rf, bad, r, e);
    TraverseRenIff(d, lv, rf, bad, r, e.scr);
    if e.def.Some? { TraverseRenIff(d, lv, rf, bad, r, e.def.value); }
    TraverseRenAlts(d, lv, rf, bad, r, e.conAlts, Traverse(d, lv, rf, e).conAlts, Ren(r, e).conAlts);
  }

  lemma {:induction false} TraverseRenConst(d: nat, lv: (nat, nat) -> CExp, rf: (nat, Name) -> CExp,
                                            bad: set<Name>, r: Renaming, e: CExp)
    requires Scoped(e, |r|) && Renames(d, lv, r) && Keeps(rf, bad) && e.CConstCase?
    ensures Traverse(d, lv, rf, e) == Ren(r, e) <==> !Mentions(bad, e)
    decreases e, 0
  {
    var alts := e.constAlts;
    TraverseRenIff(d, lv, rf, bad, r, e.scr);
    if e.def.Some? { TraverseRenIff(d, lv, rf, bad, r, e.def.value); }
    var ts, rs := Traverse(d, lv, rf, e).constAlts, Ren(r, e).constAlts;
    forall i | 0 <= i < |alts| ensures ts[i] == rs[i] <==> !Mentions(bad, alts[i].body) {
      assert (alts decreases to alts[i]);
      TraverseRenIff(d, lv, rf, bad, r, alts[i].body);
    }
    SeqEq(ts, rs);
  }

  /** A traversal that renames the locals and keeps the references is a renaming. */
  lemma TraverseIsRen(d: nat, lv: (nat, nat) -> CExp, rf: (nat, Name) -> CExp, r: Renaming, e: CExp)
    requires Scoped(e, |r|) && Renames(d, lv, r) && Keeps(rf, {})
    ensures Traverse(d, lv, rf, e) == Ren(r, e)
  {
    TraverseRenIff(d, lv, rf, {}, r, e);
    MentionsNothing({}, e);
  }

  /** Insert `k` unused variables after the first `outer` ones. */
  function InsertNames(outer: nat, k: nat, e: CExp): CExp {
    Traverse(outer, (d: nat, i: nat) => CLocal(if i < d then i else i + k), (d: nat, n) => CRef(n), e)
  }

  function Weaken(k: nat, e: CExp): CExp { InsertNames(0, k, e) }

  /** The renaming performed by `InsertNames` on a scope of `n` variables. */
  function Insertion(outer: nat, k: nat, n: nat): (r: Renaming)
    ensures |r| == n && Into(r, n + k)
    ensures forall i :: 0 <= i < n ==> r[i] == if i < outer then i else i + k
  {
    seq(n, i => if i < outer then i else i + k)
  }

  lemma InsertNamesIsRen(outer: nat, k: nat, n: nat, e: CExp)
    requires Scoped(e, n)
    ensures InsertNames(outer, k, e) == Ren(Insertion(outer, k, n), e)
  {
    var lv := (d: nat, i: nat) => CLocal(if i < d then i else i + k);
    TraverseIsRen(outer, lv, (d: nat, n) => CRef(n), Insertion(outer, k, n), e);
  }
}

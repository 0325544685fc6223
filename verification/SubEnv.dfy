/** The smallest part of an environment that a term needs (Core/Env.idr). */
module SubEnv {
  import opened Base

  /** The head of a term that binds nothing; its subterms are visited in order. */
  datatype Head =
    | Ref(n: Name) | Meta(m: Name, id: int) | App | As | TDelayed | TDelay | TForce
    | PrimVal(c: Constant) | Erased | Dotted | TType(u: Name)

  datatype BinderKind = LamB | LetB | PiB | PVarB | PLetB | PVTyB

  /** `parts` are the value, for the two kinds of let, and the type. A default
      implicit argument carries one more term. */
  datatype Binder = Binder(kind: BinderKind, default: Option<Term>, parts: seq<Term>)

  datatype Term =
    | Local(idx: nat)
    | Node(head: Head, kids: seq<Term>)
    | Bind(x: Name, b: Binder, sc: Term)

  /** The binder of variable `i` is a term over the variables further out. */
  type Env = seq<Binder>

  predicate Scoped(t: Term, n: nat)
    decreases t
  {
    match t
    case Local(i) => i < n
    case Node(_, ts) => forall i :: 0 <= i < |ts| ==> Scoped(ts[i], n)
    case Bind(_, b, s) =>
      (b.default.Some? ==> Scoped(b.default.value, n)) &&
      (forall i :: 0 <= i < |b.parts| ==> Scoped(b.parts[i], n)) && Scoped(s, n + 1)
  }

  predicate AllScoped(ts: seq<Term>, n: nat) { forall i :: 0 <= i < |ts| ==> Scoped(ts[i], n) }

  predicate EnvScoped(env: Env) {
    forall i :: 0 <= i < |env| ==> AllScoped(env[i].parts, |env| - i - 1)
  }

  function InsertNames(outer: nat, k: nat, t: Term): Term
    decreases t
  {
    match t
    case Local(i) => Local(if i < outer then i else i + k)
    case Node(h, ts) => Node(h, seq(|ts|, i requires 0 <= i < |ts| => InsertNames(outer, k, ts[i])))
    case Bind(x, b, s) =>
      Bind(x, Binder(b.kind, if b.default.Some? then Some(InsertNames(outer, k, b.default.value)) else None,
                     seq(|b.parts|, i requires 0 <= i < |b.parts| => InsertNames(outer, k, b.parts[i]))),
           InsertNames(outer + 1, k, s))
  }

  function WeakenAll(k: nat, ts: seq<Term>): (r: seq<Term>)
    ensures |r| == |ts|
  {
    seq(|ts|, i requires 0 <= i < |ts| => InsertNames(0, k, ts[i]))
  }

  function Shift(s: set<nat>): set<nat> { set i | i in s :: i + 1 }

  function DropFirst(s: set<nat>): set<nat> { set i | i in s && i > 0 :: i - 1 }

  // ----- Why the search ends -----

  function Size(t: Term): nat
    decreases t, 0
  {
    match t
    case Local(_) => 1
    case Node(_, ts) => 1 + SizeAll(ts)
    case Bind(_, b, s) => 2 + SizeAll(b.parts) + Size(s)
  }

  function SizeAll(ts: seq<Term>): nat
    decreases ts, 1
  {
    if ts == [] then 0 else 1 + Size(ts[0]) + SizeAll(ts[1..])
  }

  /** The work that the variables not yet used may still cause. */
  function Work(env: Env, used: set<nat>): nat {
    if env == [] then 0
    else (if 0 in used then 0 else 1 + SizeAll(env[0].parts)) + Work(env[1..], DropFirst(used))
  }

  lemma {:induction false} SizeInsert(outer: nat, k: nat, t: Term)
    ensures Size(InsertNames(outer, k, t)) == Size(t)
    decreases t, 0
  {
    match t
    case Local(_) =>
    case Node(_, ts) => SizeInsertAll(outer, k, ts, InsertNames(outer, k, t).kids);
    case Bind(_, b, s) =>
      SizeInsertAll(outer, k, b.parts, InsertNames(outer, k, t).b.parts);
      SizeInsert(outer + 1, k, s);
  }

  lemma {:induction false} SizeInsertAll(outer: nat, k: nat, ts: seq<Term>, us: seq<Term>)
    requires |us| == |ts| && forall i :: 0 <= i < |ts| ==> us[i] == InsertNames(outer, k, ts[i])
    ensures SizeAll(us) == SizeAll(ts)
    decreases ts, 1
  {
    if ts != [] {
      SizeInsert(outer, k, ts[0]);
      SizeInsertAll(outer, k, ts[1..], us[1..]);
    }
  }

  lemma {:induction false} WorkFewer(env: Env, used: set<nat>, more: set<nat>)
    requires used <= more
    ensures Work(env, more) <= Work(env, used)
    decreases env
  {
    if env != [] { WorkFewer(env[1..], DropFirst(used), DropFirst(more)); }
  }

  lemma {:induction false} WorkInsert(env: Env, used: set<nat>, i: nat)
    requires i < |env| && i !in used
    ensures Work(env, used) == Work(env, used + {i}) + 1 + SizeAll(env[i].parts)
    decreases env
  {
    if i == 0 {
      assert DropFirst(used + {i}) == DropFirst(used);
    } else {
      WorkInsert(env[1..], DropFirst(used), i - 1);
      assert DropFirst(used + {i}) == DropFirst(used) + {i - 1} by {
        assert i in used + {i};
      }
    }
  }

  lemma WorkBind(env: Env, used: set<nat>, b: Binder)
    ensures Work([b] + env, Shift(used)) == 1 + SizeAll(b.parts) + Work(env, used)
  {
    assert ([b] + env)[1..] == env;
    assert DropFirst(Shift(used)) == used by {
      forall i | i in used ensures i in DropFirst(Shift(used)) { assert i + 1 in Shift(used); }
    }
  }

  lemma {:induction false} WeakenScoped(outer: nat, k: nat, t: Term, n: nat)
    requires Scoped(t, n)
    ensures Scoped(InsertNames(outer, k, t), n + k)
    decreases t
  {
    match t
    case Local(_) =>
    case Node(_, ts) => forall i | 0 <= i < |ts| { WeakenScoped(outer, k, ts[i], n); }
    case Bind(_, b, s) =>
      if b.default.Some? { WeakenScoped(outer, k, b.default.value, n); }
      forall i | 0 <= i < |b.parts| { WeakenScoped(outer, k, b.parts[i], n); }
      WeakenScoped(outer + 1, k, s, n + 1);
  }

  lemma ShiftDrop(used: set<nat>, r: set<nat>)
    requires Shift(used) <= r
    ensures used <= DropFirst(r)
  {
    forall i | i in used ensures i in DropFirst(r) { assert i + 1 in Shift(used); }
  }

  /** Following variable `i` leaves less to do. */
  lemma FollowLess(env: Env, used: set<nat>, i: nat)
    requires EnvScoped(env) && i < |env| && i !in used
    ensures AllScoped(WeakenAll(i + 1, env[i].parts), |env|)
    ensures Work(env, used + {i}) + SizeAll(WeakenAll(i + 1, env[i].parts)) < Work(env, used)
  {
    WorkInsert(env, used, i);
    SizeInsertAll(0, i + 1, env[i].parts, WeakenAll(i + 1, env[i].parts));
    var us := WeakenAll(i + 1, env[i].parts);
    forall j | 0 <= j < |us| ensures Scoped(us[j], |env|) {
      WeakenScoped(0, i + 1, env[i].parts[j], |env| - i - 1);
    }
  }

  // ----- The search -----

  function FindUsed(env: Env, used: set<nat>, t: Term): (r: set<nat>)
    requires EnvScoped(env) && Scoped(t, |env|)
    ensures used <= r
    decreases Work(env, used) + Size(t)
  {
    match t
    case Local(i) =>
      if i in used then used
      else
        FollowLess(env, used, i);
        FindUsedAll(env, used + {i}, WeakenAll(i + 1, env[i].parts))
    case Node(_, ts) => FindUsedAll(env, used, ts)
    case Bind(_, b, s) =>
      var u := FindUsedAll(env, used, b.parts);
      WorkFewer(env, used, u);
      WorkBind(env, u, b);
      assert EnvScoped([b] + env);
      var r := FindUsed([b] + env, Shift(u), s);
      ShiftDrop(u, r);
      DropFirst(r)
  }

  function FindUsedAll(env: Env, used: set<nat>, ts: seq<Term>): (r: set<nat>)
    requires EnvScoped(env) && AllScoped(ts, |env|)
    ensures used <= r
    decreases Work(env, used) + SizeAll(ts)
  {
    if ts == [] then used
    else
      var u := FindUsed(env, used, ts[0]);
      WorkFewer(env, used, u);
      FindUsedAll(env, u, ts[1..])
  }

  function FindUsedLocs(env: Env, t: Term): set<nat>
    requires EnvScoped(env) && Scoped(t, |env|)
  {
    FindUsed(env, {}, t)
  }
}

module SubEnvLeast {
  import opened Base
  import opened SubEnv

  /** The free variables that the search follows: all but those of default terms. */
  function FreeVars(t: Term): set<nat>
    decreases t, 0
  {
    match t
    case Local(i) => {i}
    case Node(_, ts) => FreeVarsAll(ts)
    case Bind(_, b, s) => FreeVarsAll(b.parts) + DropFirst(FreeVars(s))
  }

  function FreeVarsAll(ts: seq<Term>): set<nat>
    decreases ts, 1
  {
    if ts == [] then {} else FreeVars(ts[0]) + FreeVarsAll(ts[1..])
  }

  function Plus(s: set<nat>, k: nat): set<nat> { set i | i in s :: i + k }

  /** The variables that the type and value of variable `i` mention. */
  function Deps(env: Env, i: nat): set<nat>
    requires i < |env|
  {
    Plus(FreeVarsAll(env[i].parts), i + 1)
  }

  /** A set of variables that needs nothing outside it. */
  ghost predicate Closed(env: Env, s: set<nat>) {
    forall i: nat :: i in s && i < |env| ==> Deps(env, i) <= s
  }

  /** New variables have what they need. */
  ghost predicate Settled(env: Env, used: set<nat>, r: set<nat>) {
    forall i: nat :: i in r && i !in used && i < |env| ==> Deps(env, i) <= r
  }

  /** Free variables under an insertion. */
  lemma {:induction false} FreeInsert(outer: nat, k: nat, t: Term)
    ensures FreeVars(InsertNames(outer, k, t)) == Moved(outer, k, FreeVars(t))
    decreases t, 0
  {
    match t
    case Local(_) =>
    case Node(_, ts) => FreeInsertAll(outer, k, ts, InsertNames(outer, k, t).kids);
    case Bind(_, b, s) =>
      FreeInsertAll(outer, k, b.parts, InsertNames(outer, k, t).b.parts);
      FreeInsert(outer + 1, k, s);
      DropMoved(outer, k, FreeVars(s));
      MovedUnion(outer, k, FreeVarsAll(b.parts), DropFirst(FreeVars(s)));
      hide Moved, DropFirst;
  }

  lemma MovedUnion(outer: nat, k: nat, a: set<nat>, b: set<nat>)
    ensures Moved(outer, k, a + b) == Moved(outer, k, a) + Moved(outer, k, b)
  {
  }

  function Moved(outer: nat, k: nat, s: set<nat>): set<nat> { set i | i in s :: if i < outer then i else i + k }

  lemma DropMoved(outer: nat, k: nat, s: set<nat>)
    ensures DropFirst(Moved(outer + 1, k, s)) == Moved(outer, k, DropFirst(s))
  {
    var l, r := DropFirst(Moved(outer + 1, k, s)), Moved(outer, k, DropFirst(s));
    forall i | i in r ensures i in l {
      var j :| j in DropFirst(s) && i == if j < outer then j else j + k;
      assert j + 1 in s;
      assert i + 1 in Moved(outer + 1, k, s);
    }
    forall i | i in l ensures i in r {
      var j :| j in s && i + 1 == if j < outer + 1 then j else j + k;
      assert j - 1 in DropFirst(s);
    }
  }

  lemma {:induction false} FreeInsertAll(outer: nat, k: nat, ts: seq<Term>, us: seq<Term>)
    requires |us| == |ts| && forall i :: 0 <= i < |ts| ==> us[i] == InsertNames(outer, k, ts[i])
    ensures FreeVarsAll(us) == Moved(outer, k, FreeVarsAll(ts))
    decreases ts, 1
  {
    if ts != [] {
      FreeInsert(outer, k, ts[0]);
      FreeInsertAll(outer, k, ts[1..], us[1..]);
    }
  }

  lemma FreeWeaken(k: nat, ts: seq<Term>)
    ensures FreeVarsAll(WeakenAll(k, ts)) == Plus(FreeVarsAll(ts), k)
  {
    FreeInsertAll(0, k, ts, WeakenAll(k, ts));
  }

  /** Under a binder, what a variable further out needs is one further out. */
  lemma DepsBind(env: Env, b: Binder, i: nat)
    requires i < |env|
    ensures Deps([b] + env, i + 1) == Shift(Deps(env, i))
  {
    var ps := FreeVarsAll(env[i].parts);
    assert ([b] + env)[i + 1] == env[i];
    forall j | j in Shift(Deps(env, i)) ensures j in Plus(ps, i + 2) { assert j - 1 in Plus(ps, i + 1); }
    forall j | j in Plus(ps, i + 2) ensures j in Shift(Deps(env, i)) { assert j - 1 in Plus(ps, i + 1); }
  }

  // ----- The result has what it needs -----

  lemma {:induction false} UsedSettled(env: Env, used: set<nat>, t: Term)
    requires EnvScoped(env) && Scoped(t, |env|)
    ensures FreeVars(t) <= FindUsed(env, used, t) && Settled(env, used, FindUsed(env, used, t))
    decreases Work(env, used) + Size(t)
  {
    match t
    case Local(i) =>
      if i !in used {
        FollowLess(env, used, i);
        AllSettled(env, used + {i}, WeakenAll(i + 1, env[i].parts));
        FreeWeaken(i + 1, env[i].parts);
      }
    case Node(_, ts) => AllSettled(env, used, ts);
    case Bind(_, b, s) =>
      var u := FindUsedAll(env, used, b.parts);
      AllSettled(env, used, b.parts);
      WorkFewer(env, used, u);
      WorkBind(env, u, b);
      UsedSettled([b] + env, Shift(u), s);
      var r := FindUsed([b] + env, Shift(u), s);
      ShiftDrop(u, r);
      BindSettled(env, b, used, u, r);
      assert DropFirst(FreeVars(s)) <= DropFirst(r);
  }

  lemma BindSettled(env: Env, b: Binder, used: set<nat>, u: set<nat>, r: set<nat>)
    requires used <= u && Settled(env, used, u) && Shift(u) <= r && Settled([b] + env, Shift(u), r)
    ensures Settled(env, used, DropFirst(r))
  {
    ShiftDrop(u, r);
    forall i: nat | i in DropFirst(r) && i !in used && i < |env| ensures Deps(env, i) <= DropFirst(r) {
      if i !in u {
        assert i + 1 in r && i + 1 !in Shift(u);
        DepsBind(env, b, i);
        ShiftDrop(Deps(env, i), r);
      }
    }
  }

  lemma {:induction false} AllSettled(env: Env, used: set<nat>, ts: seq<Term>)
    requires EnvScoped(env) && AllScoped(ts, |env|)
    ensures FreeVarsAll(ts) <= FindUsedAll(env, used, ts) && Settled(env, used, FindUsedAll(env, used, ts))
    decreases Work(env, used) + SizeAll(ts)
  {
    if ts != [] {
      var u := FindUsed(env, used, ts[0]);
      WorkFewer(env, used, u);
      UsedSettled(env, used, ts[0]);
      AllSettled(env, u, ts[1..]);
    }
  }

  // ----- The result has nothing else -----

  lemma {:induction false} UsedLeast(env: Env, used: set<nat>, t: Term, c: set<nat>)
    requires EnvScoped(env) && Scoped(t, |env|) && Closed(env, c) && used <= c && FreeVars(t) <= c
    ensures FindUsed(env, used, t) <= c
    decreases Work(env, used) + Size(t)
  {
    match t
    case Local(i) =>
      if i !in used {
        FollowLess(env, used, i);
        FreeWeaken(i + 1, env[i].parts);
        assert Deps(env, i) <= c;
        AllLeast(env, used + {i}, WeakenAll(i + 1, env[i].parts), c);
      }
    case Node(_, ts) => AllLeast(env, used, ts, c);
    case Bind(_, b, s) =>
      var u := FindUsedAll(env, used, b.parts);
      AllLeast(env, used, b.parts, c);
      WorkFewer(env, used, u);
      WorkBind(env, u, b);
      ClosedBind(env, b, c);
      UnderBinder(s, c);
      UsedLeast([b] + env, Shift(u), s, {0} + Shift(c));
      DropWithin(FindUsed([b] + env, Shift(u), s), c);
  }

  lemma DropWithin(r: set<nat>, c: set<nat>)
    requires r <= {0} + Shift(c)
    ensures DropFirst(r) <= c
  {
  }

  lemma UnderBinder(s: Term, c: set<nat>)
    requires DropFirst(FreeVars(s)) <= c
    ensures FreeVars(s) <= {0} + Shift(c)
  {
    forall i | i in FreeVars(s) && i > 0 ensures i in Shift(c) { assert i - 1 in DropFirst(FreeVars(s)); }
  }

  lemma ClosedBind(env: Env, b: Binder, c: set<nat>)
    requires Closed(env, c) && FreeVarsAll(b.parts) <= c
    ensures Closed([b] + env, {0} + Shift(c))
  {
    var env' := [b] + env;
    forall i: nat | i in {0} + Shift(c) && i < |env'| ensures Deps(env', i) <= {0} + Shift(c) {
      if i > 0 {
        DepsBind(env, b, i - 1);
        assert Deps(env, i - 1) <= c;
      } else {
        assert Deps(env', 0) == Shift(FreeVarsAll(b.parts));
      }
    }
  }

  lemma {:induction false} AllLeast(env: Env, used: set<nat>, ts: seq<Term>, c: set<nat>)
    requires EnvScoped(env) && AllScoped(ts, |env|) && Closed(env, c) && used <= c && FreeVarsAll(ts) <= c
    ensures FindUsedAll(env, used, ts) <= c
    decreases Work(env, used) + SizeAll(ts)
  {
    if ts != [] {
      var u := FindUsed(env, used, ts[0]);
      WorkFewer(env, used, u);
      UsedLeast(env, used, ts[0], c);
      AllLeast(env, u, ts[1..], c);
    }
  }

  /** The variables found are the least set that contains the term's free variables,
      those of default terms not counted, and is closed under types and let-values. */
  lemma UsedLocsLeast(env: Env, t: Term)
    requires EnvScoped(env) && Scoped(t, |env|)
    ensures FreeVars(t) <= FindUsedLocs(env, t) && Closed(env, FindUsedLocs(env, t))
    ensures forall c: set<nat> :: Closed(env, c) && FreeVars(t) <= c ==> FindUsedLocs(env, t) <= c
  {
    UsedSettled(env, {}, t);
    forall c: set<nat> | Closed(env, c) && FreeVars(t) <= c ensures FindUsedLocs(env, t) <= c {
      UsedLeast(env, {}, t, c);
    }
  }
}

module ShrinkEnv {
  import opened Base
  import opened SubEnv
  import opened SubEnvLeast

  datatype Thin = Refl | Drop(rest: Thin) | Keep(rest: Thin)

  /** The thinning of `n` variables that keeps those in `s`. */
  function MkShrink(n: nat, s: set<nat>): Thin {
    if n == 0 then Refl
    else if 0 in s then Keep(MkShrink(n - 1, DropFirst(s))) else Drop(MkShrink(n - 1, DropFirst(s)))
  }

  function FindSubEnv(env: Env, t: Term): Thin
    requires EnvScoped(env) && Scoped(t, |env|)
  {
    MkShrink(|env|, FindUsedLocs(env, t))
  }

  function ShrinkVar(i: nat, th: Thin): Option<nat> {
    match th
    case Refl => Some(i)
    case Drop(p) => if i == 0 then None else ShrinkVar(i - 1, p)
    case Keep(p) =>
      if i == 0 then Some(0)
      else
        var j := ShrinkVar(i - 1, p);
        if j.Some? then Some(j.value + 1) else None
  }

  function ShrinkTerm(t: Term, th: Thin): Option<Term>
    decreases t, 0
  {
    match t
    case Local(i) =>
      var j := ShrinkVar(i, th);
      if j.Some? then Some(Local(j.value)) else None
    case Node(h, ts) =>
      var us := ShrinkAll(ts, th);
      if us.Some? then Some(Node(h, us.value)) else None
    case Bind(x, b, s) =>
      var b', s' := ShrinkBinder(b, th), ShrinkTerm(s, Keep(th));
      if b'.Some? && s'.Some? then Some(Bind(x, b'.value, s'.value)) else None
  }

  function ShrinkAll(ts: seq<Term>, th: Thin): Option<seq<Term>>
    decreases ts, 1
  {
    if ts == [] then Some([])
    else
      var u, us := ShrinkTerm(ts[0], th), ShrinkAll(ts[1..], th);
      if u.Some? && us.Some? then Some([u.value] + us.value) else None
  }

  function ShrinkBinder(b: Binder, th: Thin): Option<Binder>
    decreases b, 1
  {
    var ps := ShrinkAll(b.parts, th);
    if ps.None? then None
    else if b.default.None? then Some(b.(parts := ps.value))
    else
      var d := ShrinkTerm(b.default.value, th);
      if d.Some? then Some(b.(default := d, parts := ps.value)) else None
  }

  predicate Fits(th: Thin, n: nat) {
    match th
    case Refl => true
    case Drop(p) => n > 0 && Fits(p, n - 1)
    case Keep(p) => n > 0 && Fits(p, n - 1)
  }

  function ShrinkEnv(env: Env, th: Thin): Option<Env>
    requires Fits(th, |env|)
    decreases th
  {
    match th
    case Refl => Some(env)
    case Drop(p) => ShrinkEnv(env[1..], p)
    case Keep(p) =>
      var rest, b := ShrinkEnv(env[1..], p), ShrinkBinder(env[0], p);
      if rest.Some? && b.Some? then Some([b.value] + rest.value) else None
  }

  // ----- When shrinking succeeds -----

  /** All free variables, those of default terms included. */
  function Vars(t: Term): set<nat>
    decreases t, 0
  {
    match t
    case Local(i) => {i}
    case Node(_, ts) => VarsAll(ts)
    case Bind(_, b, s) => BinderVars(b) + DropFirst(Vars(s))
  }

  function VarsAll(ts: seq<Term>): set<nat>
    decreases ts, 1
  {
    if ts == [] then {} else Vars(ts[0]) + VarsAll(ts[1..])
  }

  function BinderVars(b: Binder): set<nat>
    decreases b, 2
  {
    VarsAll(b.parts) + if b.default.Some? then Vars(b.default.value) else {}
  }

  predicate Keeps(th: Thin, s: set<nat>) { forall i :: i in s ==> ShrinkVar(i, th).Some? }

  lemma KeepsUnder(th: Thin, s: set<nat>)
    ensures Keeps(Keep(th), s) <==> Keeps(th, DropFirst(s))
  {
    if Keeps(Keep(th), s) {
      forall i | i in DropFirst(s) ensures ShrinkVar(i, th).Some? { assert ShrinkVar(i + 1, Keep(th)).Some?; }
    }
    if Keeps(th, DropFirst(s)) {
      forall i | i in s ensures ShrinkVar(i, Keep(th)).Some? { if i > 0 { assert i - 1 in DropFirst(s); } }
    }
  }

  lemma KeepsUnion(th: Thin, a: set<nat>, b: set<nat>)
    ensures Keeps(th, a + b) <==> Keeps(th, a) && Keeps(th, b)
  {
  }

  lemma {:induction false} ShrinkTermIff(t: Term, th: Thin)
    ensures ShrinkTerm(t, th).Some? <==> Keeps(th, Vars(t))
    decreases t, 0
  {
    match t
    case Local(_) =>
    case Node(_, ts) => ShrinkAllIff(ts, th);
    case Bind(_, b, s) =>
      ShrinkBinderIff(b, th);
      ShrinkTermIff(s, Keep(th));
      KeepsUnder(th, Vars(s));
      KeepsUnion(th, BinderVars(b), DropFirst(Vars(s)));
  }

  lemma {:induction false} ShrinkAllIff(ts: seq<Term>, th: Thin)
    ensures ShrinkAll(ts, th).Some? <==> Keeps(th, VarsAll(ts))
    decreases ts, 1
  {
    if ts != [] {
      ShrinkTermIff(ts[0], th);
      ShrinkAllIff(ts[1..], th);
      KeepsUnion(th, Vars(ts[0]), VarsAll(ts[1..]));
    }
  }

  lemma {:induction false} ShrinkBinderIff(b: Binder, th: Thin)
    ensures ShrinkBinder(b, th).Some? <==> Keeps(th, BinderVars(b))
    decreases b, 2
  {
    ShrinkAllIff(b.parts, th);
    if b.default.Some? {
      ShrinkTermIff(b.default.value, th);
      KeepsUnion(th, VarsAll(b.parts), Vars(b.default.value));
    } else {
      assert BinderVars(b) == VarsAll(b.parts);
    }
  }

  /** The thinning made from a set keeps exactly that set, in order. */
  lemma {:induction false} MkShrinkKeeps(n: nat, s: set<nat>, i: nat)
    requires i < n
    ensures ShrinkVar(i, MkShrink(n, s)).Some? <==> i in s
    ensures Fits(MkShrink(n, s), n)
  {
    if i > 0 {
      MkShrinkKeeps(n - 1, DropFirst(s), i - 1);
      assert i - 1 in DropFirst(s) <==> i in s;
    } else if n > 1 {
      MkShrinkKeeps(n - 1, DropFirst(s), 0);
    }
  }

  lemma {:induction false} MkShrinkFits(n: nat, s: set<nat>)
    ensures Fits(MkShrink(n, s), n)
  {
    if n > 0 { MkShrinkFits(n - 1, DropFirst(s)); }
  }

  predicate Bounded(s: set<nat>, n: nat) { forall i :: i in s ==> i < n }

  /** Every variable that binder `i` mentions, defaults included. */
  function AllDeps(env: Env, i: nat): set<nat>
    requires i < |env|
  {
    Plus(BinderVars(env[i]), i + 1)
  }

  predicate EnvBounded(env: Env) { forall i :: 0 <= i < |env| ==> Bounded(BinderVars(env[i]), |env| - i - 1) }

  ghost predicate AllClosed(env: Env, s: set<nat>) {
    forall i: nat :: i in s && i < |env| ==> AllDeps(env, i) <= s
  }

  /** Shrinking an environment to a set of its variables succeeds exactly when what
      they mention is in the set. */
  lemma {:induction false} ShrinkEnvIff(env: Env, s: set<nat>)
    requires EnvBounded(env)
    ensures Fits(MkShrink(|env|, s), |env|)
    ensures ShrinkEnv(env, MkShrink(|env|, s)).Some? <==> AllClosed(env, s)
    decreases |env|
  {
    MkShrinkFits(|env|, s);
    if env != [] {
      var rest, th := env[1..], MkShrink(|env| - 1, DropFirst(s));
      assert EnvBounded(rest) by { forall i | 0 <= i < |rest| ensures Bounded(BinderVars(rest[i]), |rest| - i - 1) { assert rest[i] == env[i + 1]; } }
      ShrinkEnvIff(rest, DropFirst(s));
      ShrinkBinderIff(env[0], th);
      assert Keeps(th, BinderVars(env[0])) <==> AllDeps(env, 0) <= s by { FirstBinder(env, s); }
      ClosedRest(env, s);
    }
  }

  lemma FirstBinder(env: Env, s: set<nat>)
    requires env != [] && EnvBounded(env)
    ensures Keeps(MkShrink(|env| - 1, DropFirst(s)), BinderVars(env[0])) <==> AllDeps(env, 0) <= s
  {
    var th, vs := MkShrink(|env| - 1, DropFirst(s)), BinderVars(env[0]);
    forall i | i in vs ensures ShrinkVar(i, th).Some? <==> i + 1 in s {
      assert Bounded(BinderVars(env[0]), |env| - 0 - 1);
      MkShrinkKeeps(|env| - 1, DropFirst(s), i);
      assert i in DropFirst(s) <==> i + 1 in s by { if i + 1 in s { assert (i + 1) - 1 in DropFirst(s); } }
    }
    if AllDeps(env, 0) <= s {
      forall i | i in vs ensures ShrinkVar(i, th).Some? { assert i + 1 in AllDeps(env, 0); }
    }
  }

  lemma ClosedRest(env: Env, s: set<nat>)
    requires env != []
    ensures AllClosed(env, s) <==> AllClosed(env[1..], DropFirst(s)) && (0 in s ==> AllDeps(env, 0) <= s)
  {
    var rest := env[1..];
    forall i: nat | i < |rest| ensures AllDeps(env, i + 1) <= s <==> AllDeps(rest, i) <= DropFirst(s) {
      assert rest[i] == env[i + 1];
      var vs := BinderVars(rest[i]);
      if AllDeps(env, i + 1) <= s {
        forall j | j in AllDeps(rest, i) ensures j in DropFirst(s) { assert j + 1 in AllDeps(env, i + 1); assert (j + 1) - 1 in DropFirst(s); }
      }
      if AllDeps(rest, i) <= DropFirst(s) {
        forall j | j in AllDeps(env, i + 1) ensures j in s { assert j - 1 in AllDeps(rest, i); }
      }
    }
    if AllClosed(env, s) {
      forall i: nat | i in DropFirst(s) && i < |rest| ensures AllDeps(rest, i) <= DropFirst(s) { assert i + 1 in s; }
    }
    if AllClosed(rest, DropFirst(s)) && (0 in s ==> AllDeps(env, 0) <= s) {
      forall i: nat | i in s && i < |env| ensures AllDeps(env, i) <= s {
        if i > 0 { assert i - 1 in DropFirst(s); }
      }
    }
  }

  // ----- The sub-environment of a term -----

  predicate NoDefaults(t: Term)
    decreases t
  {
    match t
    case Local(_) => true
    case Node(_, ts) => forall i :: 0 <= i < |ts| ==> NoDefaults(ts[i])
    case Bind(_, b, s) => b.default.None? && (forall i :: 0 <= i < |b.parts| ==> NoDefaults(b.parts[i])) && NoDefaults(s)
  }

  predicate PlainBinder(b: Binder) { b.default.None? && forall i :: 0 <= i < |b.parts| ==> NoDefaults(b.parts[i]) }

  lemma {:induction false} PlainVars(t: Term)
    requires NoDefaults(t)
    ensures Vars(t) == FreeVars(t)
    decreases t, 0
  {
    match t
    case Local(_) =>
    case Node(_, ts) => PlainVarsAll(ts);
    case Bind(_, b, s) =>
      PlainVarsAll(b.parts);
      PlainVars(s);
  }

  lemma {:induction false} PlainVarsAll(ts: seq<Term>)
    requires forall i :: 0 <= i < |ts| ==> NoDefaults(ts[i])
    ensures VarsAll(ts) == FreeVarsAll(ts)
    decreases ts, 1
  {
    if ts != [] {
      PlainVars(ts[0]);
      PlainVarsAll(ts[1..]);
    }
  }

  lemma {:induction false} ScopedBounded(t: Term, n: nat)
    requires Scoped(t, n)
    ensures Bounded(Vars(t), n)
    decreases t, 0
  {
    match t
    case Local(_) =>
    case Node(_, ts) => ScopedBoundedAll(ts, n);
    case Bind(_, b, s) =>
      ScopedBoundedAll(b.parts, n);
      if b.default.Some? { ScopedBounded(b.default.value, n); }
      ScopedBounded(s, n + 1);
  }

  lemma {:induction false} ScopedBoundedAll(ts: seq<Term>, n: nat)
    requires AllScoped(ts, n)
    ensures Bounded(VarsAll(ts), n)
    decreases ts, 1
  {
    if ts != [] {
      ScopedBounded(ts[0], n);
      ScopedBoundedAll(ts[1..], n);
    }
  }

  /** Without default terms, the environment and the term both shrink to the variables
      the search finds. */
  lemma SubEnvShrinks(env: Env, t: Term)
    requires EnvScoped(env) && Scoped(t, |env|) && NoDefaults(t)
    requires forall i :: 0 <= i < |env| ==> PlainBinder(env[i])
    ensures Fits(FindSubEnv(env, t), |env|)
    ensures ShrinkEnv(env, FindSubEnv(env, t)).Some? && ShrinkTerm(t, FindSubEnv(env, t)).Some?
  {
    var s := FindUsedLocs(env, t);
    UsedLocsLeast(env, t);
    forall i | 0 <= i < |env| ensures Bounded(BinderVars(env[i]), |env| - i - 1) && BinderVars(env[i]) == FreeVarsAll(env[i].parts) {
      assert PlainBinder(env[i]);
      PlainVarsAll(env[i].parts);
      ScopedBoundedAll(env[i].parts, |env| - i - 1);
      assert BinderVars(env[i]) == VarsAll(env[i].parts);
    }
    ShrinkEnvIff(env, s);
    assert AllClosed(env, s) by { forall i: nat | i in s && i < |env| ensures AllDeps(env, i) <= s { assert AllDeps(env, i) == Deps(env, i); } }
    PlainVars(t);
    ScopedBounded(t, |env|);
    ShrinkTermIff(t, MkShrink(|env|, s));
    forall i | i in Vars(t) ensures ShrinkVar(i, MkShrink(|env|, s)).Some? { MkShrinkKeeps(|env|, s, i); }
  }

  /** The search does not look at defaults, so with one the environment may not
      shrink: here variable 0 has variable 1 as its default. */
  lemma DefaultBreaks()
    ensures
      var erased := Node(Erased, []);
      var env := [Binder(PiB, Some(Local(0)), [erased]), Binder(PiB, None, [erased])];
      && EnvScoped(env) && FindUsedLocs(env, Local(0)) == {0}
      && Fits(FindSubEnv(env, Local(0)), 2) && ShrinkEnv(env, FindSubEnv(env, Local(0))).None?
  {
    var erased := Node(Erased, []);
    var env := [Binder(PiB, Some(Local(0)), [erased]), Binder(PiB, None, [erased])];
    assert EnvScoped(env);
    UsedLocsLeast(env, Local(0));
    var none: seq<Term> := [];
    assert FreeVarsAll(none) == {};
    assert FreeVars(erased) == {};
    assert FreeVarsAll([erased]) == FreeVars(erased) + FreeVarsAll([erased][1..]);
    assert Closed(env, {0});
    var s := FindUsedLocs(env, Local(0));
    assert s <= {0} && 0 in s;
    assert BinderVars(env[1]) == {} by { assert VarsAll([erased]) == Vars(erased) + VarsAll([erased][1..]); }
    assert 0 in BinderVars(env[0]);
    assert VarsAll([erased]) == Vars(erased) + VarsAll([erased][1..]);
    assert EnvBounded(env);
    ShrinkEnvIff(env, s);
    assert 1 in AllDeps(env, 0);
  }
}

/** What shrinking gives (Core/Env.idr, Core/TT/Term.idr): not only when it succeeds, but
    which terms, binders and environments come out. A shrunk term is the one that
    thinning takes back to the original. */
module ShrinkMeaning {
  import opened Base
  import opened SubEnv
  import opened SubEnvLeast
  import opened Shrink = ShrinkEnv

  /** `thinIsVar`: which variable the new variable `j` was. */
  function ThinVar(th: Thin, j: nat): nat {
    match th
    case Refl => j
    case Drop(p) => ThinVar(p, j) + 1
    case Keep(p) => if j == 0 then 0 else ThinVar(p, j - 1) + 1
  }

  /** How many of `n` variables are kept. */
  function Count(th: Thin, n: nat): (c: nat)
    requires Fits(th, n)
    ensures c <= n
  {
    match th
    case Refl => n
    case Drop(p) => Count(p, n - 1)
    case Keep(p) => 1 + Count(p, n - 1)
  }

  /** Kept variables come in order and within the scope. */
  lemma {:induction false} ThinVarIncreases(th: Thin, n: nat, j: nat, k: nat)
    requires Fits(th, n) && j <= k
    ensures k < Count(th, n) ==> ThinVar(th, k) < n
    ensures j < k ==> ThinVar(th, j) < ThinVar(th, k)
    decreases th
  {
    match th
    case Refl =>
    case Drop(p) => ThinVarIncreases(p, n - 1, j, k);
    case Keep(p) => if k > 0 { ThinVarIncreases(p, n - 1, if j == 0 then 0 else j - 1, k - 1); }
  }

  /** Shrinking a variable and looking up what it was are inverse. */
  lemma {:induction false} ShrinkVarIff(i: nat, th: Thin, j: nat)
    ensures ShrinkVar(i, th) == Some(j) <==> ThinVar(th, j) == i
    decreases th
  {
    match th
    case Refl =>
    case Drop(p) => if i > 0 { ShrinkVarIff(i - 1, p, j); }
    case Keep(p) => if i > 0 && j > 0 { ShrinkVarIff(i - 1, p, j - 1); }
  }

  /** Variable `i` is what one of the first `c` new variables was. */
  ghost predicate Kept(th: Thin, c: nat, i: nat) { exists j :: 0 <= j < c && ThinVar(th, j) == i }

  /** The thinning made from a set: its kept variables are the members of the set. */
  lemma {:induction false} MkShrinkLists(n: nat, s: set<nat>, i: nat)
    requires i < n
    ensures Fits(MkShrink(n, s), n)
    ensures i in s <==> Kept(MkShrink(n, s), Count(MkShrink(n, s), n), i)
    decreases n
  {
    MkShrinkKeeps(n, s, i);
    var th := MkShrink(n, s);
    if i in s {
      var j := ShrinkVar(i, th).value;
      ShrinkVarIff(i, th, j);
      ShrinkVarBound(i, th, n);
      assert ThinVar(th, j) == i;
    }
    if j :| 0 <= j < Count(th, n) && ThinVar(th, j) == i { ShrinkVarIff(i, th, j); }
  }

  lemma {:induction false} ShrinkVarBound(i: nat, th: Thin, n: nat)
    requires Fits(th, n) && i < n && ShrinkVar(i, th).Some?
    ensures ShrinkVar(i, th).value < Count(th, n)
    decreases th
  {
    match th
    case Refl =>
    case Drop(p) => ShrinkVarBound(i - 1, p, n - 1);
    case Keep(p) => if i > 0 { ShrinkVarBound(i - 1, p, n - 1); }
  }

  // ----- Terms and binders -----

  /** `thinTerm`: rename every variable to what it was. */
  function ThinTerm(t: Term, th: Thin): Term
    decreases t, 0
  {
    match t
    case Local(j) => Local(ThinVar(th, j))
    case Node(h, ts) => Node(h, ThinAll(ts, th))
    case Bind(x, b, s) => Bind(x, ThinBinder(b, th), ThinTerm(s, Keep(th)))
  }

  function ThinAll(ts: seq<Term>, th: Thin): (us: seq<Term>)
    ensures |us| == |ts|
    decreases ts, 1
  {
    if ts == [] then [] else [ThinTerm(ts[0], th)] + ThinAll(ts[1..], th)
  }

  function ThinBinder(b: Binder, th: Thin): Binder
    decreases b, 2
  {
    Binder(b.kind, if b.default.Some? then Some(ThinTerm(b.default.value, th)) else None, ThinAll(b.parts, th))
  }

  /** Shrinking and thinning are inverse: the shrunk term is the one that thins to the
      original, and shrinking fails exactly when there is none. */
  lemma {:induction false} ShrinkTermIs(t: Term, th: Thin, u: Term)
    ensures ShrinkTerm(t, th) == Some(u) <==> ThinTerm(u, th) == t
    decreases t, 0
  {
    match t
    case Local(i) => if u.Local? { ShrinkVarIff(i, th, u.idx); }
    case Node(_, ts) => if u.Node? { ShrinkAllIs(ts, th, u.kids); }
    case Bind(_, b, s) =>
      if u.Bind? {
        ShrinkBinderIs(b, th, u.b);
        ShrinkTermIs(s, Keep(th), u.sc);
      }
  }

  lemma {:induction false} ShrinkAllIs(ts: seq<Term>, th: Thin, us: seq<Term>)
    ensures ShrinkAll(ts, th) == Some(us) <==> ThinAll(us, th) == ts
    decreases ts, 1
  {
    if ts != [] && us != [] {
      ShrinkTermIs(ts[0], th, us[0]);
      ShrinkAllIs(ts[1..], th, us[1..]);
      assert ts == [ts[0]] + ts[1..] && us == [us[0]] + us[1..];
    }
  }

  lemma {:induction false} ShrinkBinderIs(b: Binder, th: Thin, c: Binder)
    ensures ShrinkBinder(b, th) == Some(c) <==> ThinBinder(c, th) == b
    decreases b, 2
  {
    ShrinkAllIs(b.parts, th, c.parts);
    if b.default.Some? && c.default.Some? { ShrinkTermIs(b.default.value, th, c.default.value); }
  }

  // ----- Environments -----

  /** The thinning of the scope outside variable `i`. */
  function Outside(th: Thin, i: nat): Thin
    decreases th
  {
    match th
    case Refl => Refl
    case Drop(p) => if i == 0 then p else Outside(p, i - 1)
    case Keep(p) => if i == 0 then p else Outside(p, i - 1)
  }

  /** It numbers the variables outside as the whole thinning does. */
  lemma {:induction false} OutsideThins(th: Thin, j: nat, m: nat)
    ensures ThinVar(th, j + 1 + m) == ThinVar(th, j) + 1 + ThinVar(Outside(th, ThinVar(th, j)), m)
    decreases th
  {
    match th
    case Refl =>
    case Drop(p) => OutsideThins(p, j, m);
    case Keep(p) => if j > 0 { OutsideThins(p, j - 1, m); }
  }

  /** `r` is the part of `env` that is kept: entry `j` thinned is the `j`th kept entry. */
  ghost predicate KeptPart(env: Env, th: Thin, r: Env)
    requires Fits(th, |env|)
  {
    && |r| == Count(th, |env|)
    && forall j :: 0 <= j < |r| ==> ThinVar(th, j) < |env| && ThinBinder(r[j], Outside(th, ThinVar(th, j))) == env[ThinVar(th, j)]
  }

  /** Keeping everything renames nothing, under any binders. */
  predicate Identity(th: Thin) { th.Refl? || (th.Keep? && Identity(th.rest)) }

  lemma {:induction false} ThinVarIdentity(th: Thin, j: nat)
    requires Identity(th)
    ensures ThinVar(th, j) == j
    decreases th
  {
    if th.Keep? && j > 0 { ThinVarIdentity(th.rest, j - 1); }
  }

  lemma {:induction false} ThinTermIdentity(t: Term, th: Thin)
    requires Identity(th)
    ensures ThinTerm(t, th) == t
    decreases t, 0
  {
    match t
    case Local(j) => ThinVarIdentity(th, j);
    case Node(_, ts) => ThinAllIdentity(ts, th);
    case Bind(_, b, s) => ThinBinderIdentity(b, th); ThinTermIdentity(s, Keep(th));
  }

  lemma {:induction false} ThinAllIdentity(ts: seq<Term>, th: Thin)
    requires Identity(th)
    ensures ThinAll(ts, th) == ts
    decreases ts, 1
  {
    if ts != [] { ThinTermIdentity(ts[0], th); ThinAllIdentity(ts[1..], th); }
  }

  lemma {:induction false} ThinBinderIdentity(b: Binder, th: Thin)
    requires Identity(th)
    ensures ThinBinder(b, th) == b
    decreases b, 2
  {
    ThinAllIdentity(b.parts, th);
    if b.default.Some? { ThinTermIdentity(b.default.value, th); }
  }

  /** The shrunk environment is exactly the part that is kept. */
  lemma {:induction false} ShrinkEnvIs(env: Env, th: Thin, r: Env)
    requires Fits(th, |env|)
    ensures Shrink.ShrinkEnv(env, th) == Some(r) <==> KeptPart(env, th, r)
    decreases th
  {
    match th
    case Refl =>
      forall b: Binder ensures ThinBinder(b, Refl) == b { ThinBinderIdentity(b, Refl); }
      if KeptPart(env, th, r) {
        forall j | 0 <= j < |r| ensures r[j] == env[j] { assert ThinVar(th, j) == j; }
        assert r == env;
      }
    case Drop(p) =>
      ShrinkEnvIs(env[1..], p, r);
      forall j: nat ensures ThinVar(th, j) == ThinVar(p, j) + 1 && Outside(th, ThinVar(th, j)) == Outside(p, ThinVar(p, j)) {}
      if KeptPart(env, th, r) {
        forall j | 0 <= j < |r| ensures ThinVar(p, j) < |env| - 1 && ThinBinder(r[j], Outside(p, ThinVar(p, j))) == env[1..][ThinVar(p, j)] {
          assert ThinVar(th, j) < |env|;
        }
      }
    case Keep(p) =>
      if r != [] {
        ShrinkEnvIs(env[1..], p, r[1..]);
        ShrinkBinderIs(env[0], p, r[0]);
        KeepPart(env, p, r);
        assert r == [r[0]] + r[1..];
      }
  }

  lemma KeepPart(env: Env, p: Thin, r: Env)
    requires env != [] && Fits(p, |env| - 1) && r != []
    ensures KeptPart(env, Keep(p), r) <==> ThinBinder(r[0], p) == env[0] && KeptPart(env[1..], p, r[1..])
  {
    hide ThinBinder;
    var th := Keep(p);
    forall j: nat | j > 0 ensures ThinVar(th, j) == ThinVar(p, j - 1) + 1 && Outside(th, ThinVar(th, j)) == Outside(p, ThinVar(p, j - 1)) {}
    if KeptPart(env, th, r) {
      assert ThinVar(th, 0) == 0;
      forall j | 0 <= j < |r[1..]|
        ensures ThinVar(p, j) < |env[1..]| && ThinBinder(r[1..][j], Outside(p, ThinVar(p, j))) == env[1..][ThinVar(p, j)]
      {
        assert r[1..][j] == r[j + 1] && ThinVar(th, j + 1) < |env|;
      }
    }
    if ThinBinder(r[0], p) == env[0] && KeptPart(env[1..], p, r[1..]) {
      forall j | 0 <= j < |r| ensures ThinVar(th, j) < |env| && ThinBinder(r[j], Outside(th, ThinVar(th, j))) == env[ThinVar(th, j)] {
        if j > 0 { assert r[j] == r[1..][j - 1] && ThinVar(p, j - 1) < |env[1..]|; }
      }
    }
  }

  /** Together: without default terms the sub-environment found for a term exists, is the
      part of the environment at the least closed set of variables, in order, and the
      shrunk term thinned is the term. */
  lemma SubEnvIs(env: Env, t: Term) returns (r: Env, u: Term)
    requires EnvScoped(env) && Scoped(t, |env|) && NoDefaults(t)
    requires forall i :: 0 <= i < |env| ==> PlainBinder(env[i])
    ensures Fits(FindSubEnv(env, t), |env|)
    ensures
      var th := FindSubEnv(env, t);
      && Shrink.ShrinkEnv(env, th) == Some(r) && KeptPart(env, th, r)
      && ShrinkTerm(t, th) == Some(u) && ThinTerm(u, th) == t
      && (forall i: nat :: i < |env| ==> (i in FindUsedLocs(env, t) <==> Kept(th, |r|, i)))
      && (forall j, k :: 0 <= j < k < |r| ==> ThinVar(th, j) < ThinVar(th, k))
  {
    SubEnvShrinks(env, t);
    var th := FindSubEnv(env, t);
    r, u := Shrink.ShrinkEnv(env, th).value, ShrinkTerm(t, th).value;
    ShrinkEnvIs(env, th, r);
    ShrinkTermIs(t, th, u);
    forall i: nat | i < |env| ensures i in FindUsedLocs(env, t) <==> Kept(th, |r|, i) {
      MkShrinkLists(|env|, FindUsedLocs(env, t), i);
    }
    forall j, k | 0 <= j < k < |r| ensures ThinVar(th, j) < ThinVar(th, k) { ThinVarIncreases(th, |env|, j, k); }
  }
}

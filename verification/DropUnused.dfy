/** Dropping the unused variables of a lifted body: the internal error is never
    reached, and the body means the same over the shorter environment. */
module DropUnusedCorrect {
  import opened Base
  import opened LiftedSyntax
  import opened LiftedEval
  import opened LambdaLift

  /** No reference in `l` reaches the "marked as unused" error. */
  predicate DropSafe(outer: nat, unused: seq<bool>, l: Lifted)
    requires LScoped(l, outer + |unused|)
    decreases l
  {
    match l
    case LLocal(i) => DropIdx(outer, unused, i).Some?
    case LAppName(_, args) => forall i :: 0 <= i < |args| ==> DropSafe(outer, unused, args[i])
    case LUnderApp(_, _, args) => forall i :: 0 <= i < |args| ==> DropSafe(outer, unused, args[i])
    case LApp(c, a) => DropSafe(outer, unused, c) && DropSafe(outer, unused, a)
    case LLet(_, v, b) => DropSafe(outer, unused, v) && DropSafe(outer + 1, unused, b)
    case LCon(_, _, args) => forall i :: 0 <= i < |args| ==> DropSafe(outer, unused, args[i])
    case LOp(_, _, args) => forall i :: 0 <= i < |args| ==> DropSafe(outer, unused, args[i])
    case LExtPrim(_, args) => forall i :: 0 <= i < |args| ==> DropSafe(outer, unused, args[i])
    case LConCase(s, alts, d) =>
      DropSafe(outer, unused, s) &&
      (forall i :: 0 <= i < |alts| ==> DropSafe(|alts[i].args| + outer, unused, alts[i].body)) &&
      (d.Some? ==> DropSafe(outer, unused, d.value))
    case LConstCase(s, alts, d) =>
      DropSafe(outer, unused, s) &&
      (forall i :: 0 <= i < |alts| ==> DropSafe(outer, unused, alts[i].body)) &&
      (d.Some? ==> DropSafe(outer, unused, d.value))
    case LPrimVal(_) => true
    case LErased => true
    case LCrash(_) => true
  }

  ghost predicate Keeps(outer: nat, unused: seq<bool>, l: Lifted) {
    forall j :: 0 <= j < |unused| && Occurs(outer + j, l) ==> !unused[j]
  }

  lemma {:induction false} DropIdxSome(outer: nat, unused: seq<bool>, i: nat)
    requires i < outer + |unused|
    ensures DropIdx(outer, unused, i).Some? <==> (i < outer || !unused[i - outer])
    decreases outer + |unused|
  {
    if outer == 0 {
      if i > 0 { DropIdxSome(0, unused[1..], i - 1); }
    } else if i > 0 {
      DropIdxSome(outer - 1, unused, i - 1);
    }
  }

  lemma {:induction false} KeepsUnder(k: nat, outer: nat, unused: seq<bool>, l: Lifted, b: Lifted)
    requires Keeps(outer, unused, l)
    requires forall j: nat :: Occurs(k + j, b) ==> Occurs(j, l)
    ensures Keeps(k + outer, unused, b)
  {
    forall j | 0 <= j < |unused| && Occurs(k + outer + j, b)
      ensures !unused[j]
    {
      assert Occurs(k + (outer + j), b);
      assert Occurs(outer + j, l);
    }
  }

  /** If every free variable is kept, the error cannot be reached. */
  lemma {:induction false} KeepsIsSafe(outer: nat, unused: seq<bool>, l: Lifted)
    requires LScoped(l, outer + |unused|)
    requires Keeps(outer, unused, l)
    ensures DropSafe(outer, unused, l)
    decreases l
  {
    match l
    case LLocal(i) =>
      DropIdxSome(outer, unused, i);
      if i >= outer { assert Occurs(outer + (i - outer), l); }
    case LAppName(_, args) => forall i | 0 <= i < |args| { KeepsIsSafe(outer, unused, args[i]); }
    case LUnderApp(_, _, args) => forall i | 0 <= i < |args| { KeepsIsSafe(outer, unused, args[i]); }
    case LApp(c, a) => KeepsIsSafe(outer, unused, c); KeepsIsSafe(outer, unused, a);
    case LLet(_, v, b) =>
      KeepsIsSafe(outer, unused, v);
      KeepsUnder(1, outer, unused, l, b);
      KeepsIsSafe(outer + 1, unused, b);
    case LCon(_, _, args) => forall i | 0 <= i < |args| { KeepsIsSafe(outer, unused, args[i]); }
    case LOp(_, _, args) => forall i | 0 <= i < |args| { KeepsIsSafe(outer, unused, args[i]); }
    case LExtPrim(_, args) => forall i | 0 <= i < |args| { KeepsIsSafe(outer, unused, args[i]); }
    case LConCase(s, alts, d) =>
      KeepsIsSafe(outer, unused, s);
      forall i | 0 <= i < |alts| ensures DropSafe(|alts[i].args| + outer, unused, alts[i].body) {
        KeepsUnder(|alts[i].args|, outer, unused, l, alts[i].body);
        KeepsIsSafe(|alts[i].args| + outer, unused, alts[i].body);
      }
      if d.Some? { KeepsIsSafe(outer, unused, d.value); }
    case LConstCase(s, alts, d) =>
      KeepsIsSafe(outer, unused, s);
      forall i | 0 <= i < |alts| { KeepsIsSafe(outer, unused, alts[i].body); }
      if d.Some? { KeepsIsSafe(outer, unused, d.value); }
    case LPrimVal(_) =>
    case LErased =>
    case LCrash(_) =>
  }

  /** What `makeLam` drops is never referenced, so its `dropIdx` never crashes. */
  lemma UnusedIsSafe(bound: nat, n: nat, scl: Lifted)
    requires LScoped(scl, bound + n)
    ensures DropSafe(bound, UnusedIn(bound, n, scl), scl)
    ensures forall j :: 0 <= j < n ==> (UnusedIn(bound, n, scl)[j] <==> !Occurs(bound + j, scl))
  {
    var unused := UnusedIn(bound, n, scl);
    forall j | 0 <= j < n
      ensures unused[j] <==> !Occurs(bound + j, scl)
    {
      UsedVarsExact(InitUsed(bound + n), scl, bound + j);
    }
    KeepsIsSafe(bound, unused, scl);
  }

  /** A renumbered index finds the same entry in the shorter environment. */
  lemma {:induction false} DropIdxLookup<T>(o: seq<T>, v: seq<T>, unused: seq<bool>, i: nat)
    requires |v| == |unused| && i < |o| + |v|
    requires DropIdx(|o|, unused, i).Some?
    ensures DropIdx(|o|, unused, i).value < |o| + |Dropped(v, unused)|
    ensures (o + Dropped(v, unused))[DropIdx(|o|, unused, i).value] == (o + v)[i]
    decreases |o| + |v|
  {
    if o == [] {
      if i > 0 { DropIdxLookup(o, v[1..], unused[1..], i - 1); }
    } else if i > 0 {
      DropIdxLookup(o[1..], v, unused, i - 1);
    }
  }

  ghost predicate SafeList(outer: nat, unused: seq<bool>, ls: seq<Lifted>, ds: seq<Lifted>) {
    |ds| == |ls| &&
    forall i :: 0 <= i < |ls| ==>
      LScoped(ls[i], outer + |unused|) && DropSafe(outer, unused, ls[i]) &&
      ds[i] == DropUnused(outer, unused, ls[i])
  }

  lemma {:induction false} DropEvalList(p: LProg, fuel: nat, o: seq<Val>, v: seq<Val>, unused: seq<bool>,
                                        ls: seq<Lifted>, ds: seq<Lifted>)
    requires |v| == |unused| && SafeList(|o|, unused, ls, ds)
    ensures LEvalList(p, fuel, o + Dropped(v, unused), ds) == LEvalList(p, fuel, o + v, ls)
    decreases ls
  {
    if ls != [] {
      DropEval(p, fuel, o, v, unused, ls[0]);
      DropEvalList(p, fuel, o, v, unused, ls[1..], ds[1..]);
    }
  }

  /** Dropping what is not used does not change what a term evaluates to. */
  lemma {:induction false} DropEval(p: LProg, fuel: nat, o: seq<Val>, v: seq<Val>, unused: seq<bool>, l: Lifted)
    requires |v| == |unused| && LScoped(l, |o| + |v|) && DropSafe(|o|, unused, l)
    ensures LEval(p, fuel, o + Dropped(v, unused), DropUnused(|o|, unused, l)) == LEval(p, fuel, o + v, l)
    decreases l
  {
    hide Dropped, LCall, LApply;
    var env, short := o + v, o + Dropped(v, unused);
    var l' := DropUnused(|o|, unused, l);
    match l
    case LLocal(i) => DropIdxLookup(o, v, unused, i);
    case LAppName(_, args) => DropEvalList(p, fuel, o, v, unused, args, l'.args);
    case LUnderApp(_, _, args) => DropEvalList(p, fuel, o, v, unused, args, l'.args);
    case LApp(c, a) => DropEval(p, fuel, o, v, unused, c); DropEval(p, fuel, o, v, unused, a);
    case LLet(_, e, b) =>
      DropEval(p, fuel, o, v, unused, e);
      var x := LEval(p, fuel, env, e);
      if x.Value? {
        assert [x.v] + env == ([x.v] + o) + v && [x.v] + short == ([x.v] + o) + Dropped(v, unused);
        DropEval(p, fuel, [x.v] + o, v, unused, b);
      }
    case LCon(_, _, args) => DropEvalList(p, fuel, o, v, unused, args, l'.args);
    case LOp(_, _, args) => DropEvalList(p, fuel, o, v, unused, args, l'.args);
    case LExtPrim(_, args) => DropEvalList(p, fuel, o, v, unused, args, l'.args);
    case LConCase(_, _, _) => DropEvalConCase(p, fuel, o, v, unused, l);
    case LConstCase(s, alts, d) =>
      DropEval(p, fuel, o, v, unused, s);
      assert LAltConsts(l'.constAlts) == LAltConsts(alts);
      forall i | 0 <= i < |alts| { DropEval(p, fuel, o, v, unused, alts[i].body); }
      if d.Some? { DropEval(p, fuel, o, v, unused, d.value); }
    case LPrimVal(_) =>
    case LErased =>
    case LCrash(_) =>
  }

  lemma {:induction false} DropEvalConCase(p: LProg, fuel: nat, o: seq<Val>, v: seq<Val>, unused: seq<bool>, l: Lifted)
    requires l.LConCase?
    requires |v| == |unused| && LScoped(l, |o| + |v|) && DropSafe(|o|, unused, l)
    ensures LEval(p, fuel, o + Dropped(v, unused), DropUnused(|o|, unused, l)) == LEval(p, fuel, o + v, l)
    decreases l, 0
  {
    hide Dropped, DropIdx, LCall, LApply;
    var env, short := o + v, o + Dropped(v, unused);
    var l' := DropUnused(|o|, unused, l);
    DropEval(p, fuel, o, v, unused, l.scr);
    assert LAltKeys(l'.conAlts) == LAltKeys(l.conAlts);
    var x := LEval(p, fuel, env, l.scr);
    if x.Value? {
      var pick := PickKey(LAltKeys(l.conAlts), x.v);
      if pick.Some? {
        var alt := l.conAlts[pick.value];
        if |alt.args| == |x.v.args| {
          assert x.v.args + env == (x.v.args + o) + v;
          assert x.v.args + short == (x.v.args + o) + Dropped(v, unused);
          DropEval(p, fuel, x.v.args + o, v, unused, alt.body);
        }
      } else if l.def.Some? {
        DropEval(p, fuel, o, v, unused, l.def.value);
      }
    }
  }
}

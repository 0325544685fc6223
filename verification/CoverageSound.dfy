/** No unmatched tuple of values escapes the search. */
module CoverageSound {
  import opened Base
  import opened Coverage

  datatype Val = V(tag: int, args: seq<Val>)

  datatype Verdict = Reached | NoMatch | Absurd | IllTyped

  /** A value built by one of the constructors. */
  predicate HasType(v: Val, cons: seq<DataCon>) {
    (exists i :: 0 <= i < |cons| && cons[i].tag == v.tag) &&
    (forall i :: 0 <= i < |cons| && cons[i].tag == v.tag ==> cons[i].arity == |v.args|)
  }

  /** First-match evaluation of a tree on the values of the variables in scope. */
  function Run(rho: seq<Val>, t: Tree): Verdict
    decreases t, 1
  {
    match t
    case Case(_, v, cons, alts) =>
      if v < |rho| && HasType(rho[v], cons) then RunAlts(rho, rho[v], alts) else IllTyped
    case STerm => Reached
    case Unmatched => NoMatch
    case Impossible => Absurd
  }

  function RunAlts(rho: seq<Val>, v: Val, alts: seq<Alt>): Verdict
    decreases alts, 0
  {
    if alts == [] then NoMatch
    else
      assert (alts decreases to alts[0]);
      match alts[0]
      case ConCase(_, t, args, b) =>
        if t == v.tag then (if |args| == |v.args| then Run(v.args + rho, b) else IllTyped)
        else RunAlts(rho, v, alts[1..])
      case DefaultCase(b) => Run(rho, b)
  }

  // ----- Weakening a tree -----

  lemma {:induction false} RunWeaken(a: seq<Val>, m: seq<Val>, b: seq<Val>, t: Tree)
    ensures Run(a + (m + b), InsertTree(|a|, |m|, t)) == Run(a + b, t)
    decreases t, 1
  {
    if t.Case? {
      var t' := InsertTree(|a|, |m|, t);
      assert t'.idx < |a + (m + b)| <==> t.idx < |a + b|;
      if t.idx < |a + b| {
        assert (a + (m + b))[t'.idx] == (a + b)[t.idx];
        RunAltsWeaken(a, m, b, (a + b)[t.idx], t.alts, t'.alts);
      }
    }
  }

  lemma {:induction false} RunAltsWeaken(a: seq<Val>, m: seq<Val>, b: seq<Val>, v: Val, alts: seq<Alt>, alts': seq<Alt>)
    requires |alts'| == |alts|
    requires forall i :: 0 <= i < |alts| ==> alts'[i] == match alts[i]
                                                         case ConCase(n, t, args, sc) => ConCase(n, t, args, InsertTree(|args| + |a|, |m|, sc))
                                                         case DefaultCase(sc) => DefaultCase(InsertTree(|a|, |m|, sc))
    ensures RunAlts(a + (m + b), v, alts') == RunAlts(a + b, v, alts)
    decreases alts, 0
  {
    if alts != [] {
      assert (alts decreases to alts[0]);
      if alts[0].DefaultCase? {
        RunWeaken(a, m, b, alts[0].body);
      } else if alts[0].tag == v.tag {
        if |alts[0].args| == |v.args| {
          RunWeaken(v.args + a, m, b, alts[0].body);
          assert v.args + (a + (m + b)) == (v.args + a) + (m + b) && v.args + (a + b) == (v.args + a) + b;
        }
      } else {
        RunAltsWeaken(a, m, b, v, alts[1..], alts'[1..]);
      }
    }
  }

  // ----- Expanding, completing and filtering branches keeps the verdict -----

  predicate NoDefaults(alts: seq<Alt>) { forall i :: 0 <= i < |alts| ==> alts[i].ConCase? }

  predicate Covers(alts: seq<Alt>, t: int) { exists i :: 0 <= i < |alts| && alts[i].ConCase? && alts[i].tag == t }

  lemma {:induction false} RunAppend(rho: seq<Val>, v: Val, xs: seq<Alt>, ys: seq<Alt>)
    requires NoDefaults(xs)
    ensures RunAlts(rho, v, xs + ys) == if Covers(xs, v.tag) then RunAlts(rho, v, xs) else RunAlts(rho, v, ys)
    ensures !Covers(xs, v.tag) ==> RunAlts(rho, v, xs) == NoMatch
    decreases xs
  {
    if xs == [] {
      assert xs + ys == ys;
    } else {
      RunAppend(rho, v, xs[1..], ys);
      assert (xs + ys)[1..] == xs[1..] + ys && (xs + ys)[0] == xs[0];
      assert xs[0].tag != v.tag ==> (Covers(xs, v.tag) <==> Covers(xs[1..], v.tag)) by {
        if Covers(xs, v.tag) && xs[0].tag != v.tag {
          var i :| 0 <= i < |xs| && xs[i].ConCase? && xs[i].tag == v.tag;
          assert xs[1..][i - 1] == xs[i];
        }
      }
    }
  }

  /** All branches made from one tree run that tree. */
  lemma {:induction false} RunMkAlts(rho: seq<Val>, v: Val, sc: Tree, cons: seq<DataCon>)
    requires forall i :: 0 <= i < |cons| && cons[i].tag == v.tag ==> cons[i].arity == |v.args|
    requires exists i :: 0 <= i < |cons| && cons[i].tag == v.tag
    ensures RunAlts(rho, v, MkAlts(sc, cons)) == Run(rho, sc) && Covers(MkAlts(sc, cons), v.tag)
    decreases cons
  {
    var i :| 0 <= i < |cons| && cons[i].tag == v.tag;
    assert MkAlts(sc, cons)[i].tag == v.tag;
    if cons[0].tag == v.tag {
      RunWeaken([], v.args, rho, sc);
      assert [] + (v.args + rho) == v.args + rho && [] + rho == rho;
    } else {
      assert cons[1..][i - 1] == cons[i];
      RunMkAlts(rho, v, sc, cons[1..]);
      assert MkAlts(sc, cons)[1..] == MkAlts(sc, cons[1..]);
    }
  }

  lemma {:induction false} RunRep(rho: seq<Val>, v: Val, cons: seq<DataCon>, alts: seq<Alt>)
    requires HasType(v, cons)
    ensures NoDefaults(Rep(cons, alts)) && RunAlts(rho, v, Rep(cons, alts)) == RunAlts(rho, v, alts)
    decreases alts
  {
    if alts != [] {
      RunRep(rho, v, cons, alts[1..]);
      if alts[0].DefaultCase? {
        RunMkAlts(rho, v, alts[0].body, cons);
        RunAppend(rho, v, MkAlts(alts[0].body, cons), Rep(cons, alts[1..]));
      } else {
        RunAppend(rho, v, [alts[0]], Rep(cons, alts[1..]));
        assert [alts[0]][1..] == [];
        if alts[0].tag == v.tag { assert [alts[0]][0].tag == v.tag; }
      }
    }
  }

  lemma {:induction false} RunFilter(rho: seq<Val>, v: Val, f: Alt -> bool, alts: seq<Alt>)
    requires NoDefaults(alts) && forall i :: 0 <= i < |alts| && alts[i].tag == v.tag ==> f(alts[i])
    ensures NoDefaults(Filter(f, alts)) && RunAlts(rho, v, Filter(f, alts)) == RunAlts(rho, v, alts)
    ensures Covers(Filter(f, alts), v.tag) <==> Covers(alts, v.tag)
    decreases alts
  {
    if alts != [] {
      RunFilter(rho, v, f, alts[1..]);
      var rest := Filter(f, alts[1..]);
      CoversCons(alts, v.tag);
      if f(alts[0]) {
        assert Filter(f, alts)[1..] == rest;
        CoversCons(Filter(f, alts), v.tag);
      } else {
        assert Filter(f, alts) == rest;
      }
    }
  }

  lemma CoversCons(alts: seq<Alt>, t: int)
    requires alts != []
    ensures Covers(alts, t) <==> (alts[0].ConCase? && alts[0].tag == t) || Covers(alts[1..], t)
  {
    if i :| 0 <= i < |alts| && alts[i].ConCase? && alts[i].tag == t {
      if i > 0 { assert alts[1..][i - 1] == alts[i]; }
    }
    if i :| 0 <= i < |alts[1..]| && alts[1..][i].ConCase? && alts[1..][i].tag == t {
      assert alts[i + 1] == alts[1..][i];
    }
  }

  lemma {:induction false} RunDropRep(rho: seq<Val>, v: Val, alts: seq<Alt>)
    requires NoDefaults(alts)
    ensures NoDefaults(DropRep(alts)) && RunAlts(rho, v, DropRep(alts)) == RunAlts(rho, v, alts)
    ensures Covers(DropRep(alts), v.tag) <==> Covers(alts, v.tag)
    decreases |alts|
  {
    if alts != [] {
      var f := a => !TagIs(alts[0].tag, a);
      var rest := Filter(f, alts[1..]);
      CoversCons(alts, v.tag);
      assert NoDefaults(rest) by { FilterNoDefaults(f, alts[1..]); }
      if alts[0].tag != v.tag { RunFilter(rho, v, f, alts[1..]); }
      RunDropRep(rho, v, rest);
      assert DropRep(alts)[1..] == DropRep(rest);
      CoversCons(DropRep(alts), v.tag);
    }
  }

  lemma {:induction false} FilterNoDefaults(f: Alt -> bool, alts: seq<Alt>)
    requires NoDefaults(alts)
    ensures NoDefaults(Filter(f, alts))
  {
    if alts != [] { FilterNoDefaults(f, alts[1..]); }
  }

  /** With the missing branches added, some branch takes every value, and the verdict
      is as before. */
  lemma RunMissing(rho: seq<Val>, v: Val, cons: seq<DataCon>, alts: seq<Alt>)
    requires HasType(v, cons) && NoDefaults(alts)
    ensures
      var all := alts + MissingAlts(cons, alts);
      NoDefaults(all) && Covers(all, v.tag) && RunAlts(rho, v, all) == RunAlts(rho, v, alts)
  {
    var f := c => !exists i :: 0 <= i < |alts| && AltMatch(c, alts[i]);
    var mk := MkAlts(Unmatched, cons);
    var missing := MissingAlts(cons, alts);
    var all := alts + missing;
    RunAppend(rho, v, alts, missing);
    FilterNoDefaults(f, mk);
    if Covers(alts, v.tag) {
      var i :| 0 <= i < |alts| && alts[i].ConCase? && alts[i].tag == v.tag;
      assert all[i] == alts[i];
    } else {
      RunMkAlts(rho, v, Unmatched, cons);
      RunFilter(rho, v, f, mk);
      var i :| 0 <= i < |missing| && missing[i].ConCase? && missing[i].tag == v.tag;
      assert all[|alts| + i] == missing[i];
    }
  }

  // ----- What is known holds of the values -----

  ghost predicate KnownOk(known: Known, rho: seq<Val>) {
    forall i :: 0 <= i < |known| ==> known[i].0 < |rho| && rho[known[i].0].tag == known[i].1
  }

  ghost predicate NotsOk(nots: Nots, rho: seq<Val>) {
    forall i :: 0 <= i < |nots| ==> nots[i].0 < |rho| && rho[nots[i].0].tag !in nots[i].1
  }

  lemma {:induction false} FindTagEntry<T>(v: nat, known: seq<(nat, T)>)
    ensures FindTag(v, known).Some? ==> exists i :: 0 <= i < |known| && known[i] == (v, FindTag(v, known).value)
    decreases known
  {
    if known != [] {
      if known[0].0 == v {
        assert known[0] == (v, FindTag(v, known).value);
      } else {
        FindTagEntry(v, known[1..]);
        if FindTag(v, known[1..]).Some? {
          var i :| 0 <= i < |known[1..]| && known[1..][i] == (v, FindTag(v, known[1..]).value);
          assert known[i + 1] == known[1..][i];
        }
      }
    }
  }

  lemma {:induction false} AddNotOk(v: nat, t: int, nots: Nots, rho: seq<Val>)
    requires NotsOk(nots, rho) && v < |rho| && rho[v].tag != t
    ensures NotsOk(AddNot(v, t, nots), rho)
    decreases nots
  {
    if nots != [] && nots[0].0 != v { AddNotOk(v, t, nots[1..], rho); }
  }

  lemma BranchesRun(rho: seq<Val>, v: nat, cons: seq<DataCon>, altsIn: seq<Alt>, known: Known, nots: Nots)
    requires v < |rho| && HasType(rho[v], cons) && KnownOk(known, rho) && NotsOk(nots, rho)
    ensures
      var b := Branches(v, cons, altsIn, known, nots);
      NoDefaults(b) && Covers(b, rho[v].tag) && RunAlts(rho, rho[v], b) == RunAlts(rho, rho[v], altsIn)
  {
    var x := rho[v];
    RunRep(rho, x, cons, altsIn);
    RunDropRep(rho, x, Rep(cons, altsIn));
    var alts := ReplaceDefaults(cons, altsIn);
    RunMissing(rho, x, cons, alts);
    hide Rep, DropRep, MissingAlts, RunAlts, Run;
    var all := alts + MissingAlts(cons, alts);
    var tag, no := FindTag(v, known), FindTag(v, nots);
    FindTagEntry(v, known);
    FindTagEntry(v, nots);
    if tag.Some? { RunFilter(rho, x, a => TagIs(tag.value, a), all); }
    var altsK := if tag.Some? then Filter(a => TagIs(tag.value, a), all) else all;
    if no.Some? { RunFilter(rho, x, a => TagIsNot(no.value, a), altsK); }
  }

  // ----- Names -----

  /** Each variable that is matched on has a name no other variable in scope has, and
      not a generated one. */
  predicate WellNamed(scope: seq<Name>, t: Tree)
    decreases t
  {
    t.Case? ==>
      && t.idx < |scope| && scope[t.idx] == t.x && !Generated(t.x)
      && (forall j :: 0 <= j < |scope| && j != t.idx ==> scope[j] != t.x)
      && (forall i :: 0 <= i < |t.alts| ==>
           match t.alts[i]
           case ConCase(_, _, args, b) => WellNamed(args + scope, b)
           case DefaultCase(b) => WellNamed(scope, b))
  }

  predicate AltNamed(scope: seq<Name>, a: Alt) {
    match a
    case ConCase(_, _, args, b) => WellNamed(args + scope, b)
    case DefaultCase(b) => WellNamed(scope, b)
  }

  predicate AllNamed(scope: seq<Name>, alts: seq<Alt>) { forall i :: 0 <= i < |alts| ==> AltNamed(scope, alts[i]) }

  lemma {:induction false} WeakenNamed(a: seq<Name>, k: nat, b: seq<Name>, t: Tree)
    requires WellNamed(a + b, t)
    ensures WellNamed(a + (FreshArgs(k) + b), InsertTree(|a|, k, t))
    decreases t
  {
    if t.Case? {
      var t', old', new' := InsertTree(|a|, k, t), a + b, a + (FreshArgs(k) + b);
      assert new'[t'.idx] == old'[t.idx];
      forall j | 0 <= j < |new'| && j != t'.idx ensures new'[j] != t.x {
        if j < |a| { assert new'[j] == old'[j]; }
        else if j >= |a| + k { assert new'[j] == old'[j - k]; }
      }
      forall i | 0 <= i < |t.alts| ensures AltNamed(new', t'.alts[i]) {
        assert (t.alts decreases to t.alts[i]);
        if t.alts[i].ConCase? {
          var args := t.alts[i].args;
          assert args + (a + b) == (args + a) + b && args + (a + (FreshArgs(k) + b)) == (args + a) + (FreshArgs(k) + b);
          WeakenNamed(args + a, k, b, t.alts[i].body);
        } else {
          WeakenNamed(a, k, b, t.alts[i].body);
        }
      }
    }
  }

  lemma BranchesNamed(scope: seq<Name>, v: nat, cons: seq<DataCon>, altsIn: seq<Alt>, known: Known, nots: Nots)
    requires AllNamed(scope, altsIn)
    ensures AllNamed(scope, Branches(v, cons, altsIn, known, nots))
  {
    var bs := Branches(v, cons, altsIn, known, nots);
    forall i | 0 <= i < |bs| ensures AltNamed(scope, bs[i]) {
      BranchOrigin(v, cons, altsIn, known, nots, bs[i]);
      hide Branches;
      if !(bs[i] in altsIn) {
        var sc, c :| c in cons && (sc == Unmatched || DefaultCase(sc) in altsIn) && bs[i] == MkAlt(sc, c);
        assert [] + scope == scope && [] + (FreshArgs(c.arity) + scope) == FreshArgs(c.arity) + scope;
        if sc != Unmatched { assert AltNamed(scope, DefaultCase(sc)); }
        WeakenNamed([], c.arity, scope, sc);
      }
    }
  }

  // ----- Patterns and the values they stand for -----

  /** A pattern matches a value; variables match anything. */
  predicate Matches(p: Pat, v: Val)
    decreases p
  {
    match p
    case PVar(_) => true
    case PCon(_, t, ps) => v.tag == t && |v.args| == |ps| && forall i :: 0 <= i < |ps| ==> Matches(ps[i], v.args[i])
  }

  predicate MatchesAll(ps: seq<Pat>, vs: seq<Val>) {
    |ps| == |vs| && forall i :: 0 <= i < |ps| ==> Matches(ps[i], vs[i])
  }

  /** A pattern denotes a value when its variables stand for values in scope. */
  ghost predicate Denotes(scope: seq<Name>, rho: seq<Val>, p: Pat, v: Val)
    requires |scope| == |rho|
    decreases p
  {
    match p
    case PVar(x) => exists j :: 0 <= j < |scope| && scope[j] == x && rho[j] == v
    case PCon(_, t, ps) =>
      v.tag == t && |v.args| == |ps| && forall i :: 0 <= i < |ps| ==> Denotes(scope, rho, ps[i], v.args[i])
  }

  ghost predicate DenotesAll(scope: seq<Name>, rho: seq<Val>, ps: seq<Pat>, vs: seq<Val>)
    requires |scope| == |rho|
  {
    |ps| == |vs| && forall i :: 0 <= i < |ps| ==> Denotes(scope, rho, ps[i], vs[i])
  }

  lemma {:induction false} DenotesMatches(scope: seq<Name>, rho: seq<Val>, p: Pat, v: Val)
    requires |scope| == |rho| && Denotes(scope, rho, p, v)
    ensures Matches(p, v)
    decreases p
  {
    if p.PCon? {
      forall i | 0 <= i < |p.args| ensures Matches(p.args[i], v.args[i]) { DenotesMatches(scope, rho, p.args[i], v.args[i]); }
    }
  }

  /** Refining the matched variable to its constructor keeps what a pattern denotes. */
  lemma {:induction false} SubstDenotes(scope: seq<Name>, rho: seq<Val>, idx: nat, a: Alt, p: Pat, v: Val)
    requires |scope| == |rho| && idx < |scope| && Denotes(scope, rho, p, v)
    requires forall j :: 0 <= j < |scope| && j != idx ==> scope[j] != scope[idx]
    requires a.ConCase? && a.tag == rho[idx].tag && |a.args| == |rho[idx].args|
    ensures Denotes(a.args + scope, rho[idx].args + rho, SubstName(scope[idx], PCon(a.con, a.tag, PVars(a.args)), p), v)
    decreases p
  {
    var scope', rho' := a.args + scope, rho[idx].args + rho;
    match p
    case PVar(x) =>
      var j :| 0 <= j < |scope| && scope[j] == x && rho[j] == v;
      if x == scope[idx] {
        forall i | 0 <= i < |a.args| ensures Denotes(scope', rho', PVars(a.args)[i], v.args[i]) {
          assert scope'[i] == a.args[i] && rho'[i] == v.args[i];
        }
      } else {
        assert scope'[|a.args| + j] == x && rho'[|a.args| + j] == v;
      }
    case PCon(_, _, ps) =>
      forall i | 0 <= i < |ps| { SubstDenotes(scope, rho, idx, a, ps[i], v.args[i]); }
  }

  // ----- Soundness -----

  lemma WeakenOk(known: Known, nots: Nots, xs: seq<Val>, rho: seq<Val>, v: nat)
    requires KnownOk(known, rho) && NotsOk(nots, rho) && v < |rho|
    ensures KnownOk(WeakenNs(|xs|, [(v, rho[v].tag)] + known), xs + rho)
    ensures NotsOk(WeakenNs(|xs|, nots), xs + rho)
  {
    var ks := [(v, rho[v].tag)] + known;
    forall i | 0 <= i < |ks| ensures ks[i].0 < |rho| && rho[ks[i].0].tag == ks[i].1 {
      if i > 0 { assert ks[i] == known[i - 1]; }
    }
  }

  /** Every tuple that the tree does not match is an instance of a returned pattern
      list. */
  lemma {:induction false} BuildArgsSound(scope: seq<Name>, rho: seq<Val>, known: Known, nots: Nots,
                                          ps: seq<Pat>, vs: seq<Val>, t: Tree)
    requires |scope| == |rho| && WellNamed(scope, t) && KnownOk(known, rho) && NotsOk(nots, rho)
    requires DenotesAll(scope, rho, ps, vs) && Run(rho, t) == NoMatch
    ensures exists q :: q in BuildArgs(known, nots, ps, t) && MatchesAll(q, vs)
    decreases Height(t), 1, 0
  {
    match t
    case Case(x, v, cons, altsIn) =>
      HeightBelow(t);
      BranchesBelow(v, cons, altsIn, known, nots, Height(t));
      BranchesRun(rho, v, cons, altsIn, known, nots);
      BranchesNamed(scope, v, cons, altsIn, known, nots);
      hide Branches, RunAlts, Denotes;
      BuildAltsSound(scope, rho, x, v, known, nots, ps, vs, Branches(v, cons, altsIn, known, nots), Height(t));
    case Unmatched =>
      forall i | 0 <= i < |ps| ensures Matches(ps[i], vs[i]) { DenotesMatches(scope, rho, ps[i], vs[i]); }
      assert MatchesAll(ps, vs) && ps in BuildArgs(known, nots, ps, t);
    case _ =>
  }

  lemma {:induction false} BuildAltsSound(scope: seq<Name>, rho: seq<Val>, x: Name, v: nat, known: Known, nots: Nots,
                                          ps: seq<Pat>, vs: seq<Val>, alts: seq<Alt>, h: nat)
    requires |scope| == |rho| && v < |scope| && scope[v] == x && AllNamed(scope, alts) && Below(alts, h)
    requires forall j :: 0 <= j < |scope| && j != v ==> scope[j] != x
    requires KnownOk(known, rho) && NotsOk(nots, rho) && DenotesAll(scope, rho, ps, vs)
    requires NoDefaults(alts) && Covers(alts, rho[v].tag) && RunAlts(rho, rho[v], alts) == NoMatch
    ensures exists q :: q in BuildArgsAlts(x, v, known, nots, ps, alts, h) && MatchesAll(q, vs)
    decreases h, 0, |alts|
  {
    var a := alts[0];
    assert AltNamed(scope, a);
    if a.tag == rho[v].tag {
      var xs := rho[v].args;
      WeakenOk(known, nots, xs, rho, v);
      forall i | 0 <= i < |ps| ensures Denotes(a.args + scope, xs + rho, Refine(x, a, ps)[i], vs[i]) {
        SubstDenotes(scope, rho, v, a, ps[i], vs[i]);
      }
      hide Denotes, Matches;
      BuildArgsSound(a.args + scope, xs + rho, WeakenNs(|xs|, [(v, a.tag)] + known), WeakenNs(|xs|, nots),
                     Refine(x, a, ps), vs, a.body);
    } else {
      CoversCons(alts, rho[v].tag);
      AddNotOk(v, a.tag, nots, rho);
      hide Denotes, Matches;
      BuildAltsSound(scope, rho, x, v, known, AddNot(v, a.tag, nots), ps, vs, alts[1..], h);
    }
  }

  /** The patterns reported for a tree cover every tuple of values it does not match. */
  lemma MissingSound(vars: seq<Name>, vs: seq<Val>, t: Tree)
    requires |vs| == |vars| && WellNamed(vars, t) && Run(vs, t) == NoMatch
    ensures exists q :: q in GetMissing(vars, t) && MatchesAll(q, vs)
  {
    forall i | 0 <= i < |vars| ensures Denotes(vars, vs, PVars(vars)[i], vs[i]) { assert vars[i] == PVars(vars)[i].x; }
    BuildArgsSound(vars, vs, [], [], PVars(vars), vs, t);
  }

  /** A tree with nothing reported missing matches every tuple of well-typed values. */
  lemma NothingMissing(vars: seq<Name>, vs: seq<Val>, t: Tree)
    requires |vs| == |vars| && WellNamed(vars, t) && GetMissing(vars, t) == []
    ensures Run(vs, t) != NoMatch
  {
    if Run(vs, t) == NoMatch { MissingSound(vars, vs, t); }
  }

  /** Generated names do repeat: two defaults, one inside the other, give a list in
      which one name stands for fields of two different values. */
  lemma NamesRepeat(x: Name, y: Name, a: Name, b: Name)
    requires x != y && x != MN("m", 0) && y != MN("m", 0)
    ensures
      var inner := Case(y, 1, [MkDataCon(b, 0, 1)], [DefaultCase(Unmatched)]);
      var t := Case(x, 0, [MkDataCon(a, 0, 1)], [DefaultCase(inner)]);
      var m := PVar(MN("m", 0));
      GetMissing([x, y], t) == [[PCon(a, 0, [m]), PCon(b, 0, [m])]]
  {
    var ca, cb := MkDataCon(a, 0, 1), MkDataCon(b, 0, 1);
    var inner := Case(y, 1, [cb], [DefaultCase(Unmatched)]);
    var t := Case(x, 0, [ca], [DefaultCase(inner)]);
    OneDefault(0, ca, inner, [], []);
    var sc := InsertTree(0, 1, inner);
    assert sc == Case(y, 2, [cb], [DefaultCase(Unmatched)]);
    var ps := Refine(x, MkAlt(inner, ca), PVars([x, y]));
    assert ps[0] == PCon(a, 0, PVars(FreshArgs(1))) && ps[1] == PVar(y);
    var known := WeakenNs(1, [(0, 0)] + []);
    assert WeakenNs<seq<int>>(1, []) == [];
    OneDefault(2, cb, Unmatched, known, []);
    var qs := Refine(y, MkAlt(Unmatched, cb), ps);
    assert PVars(FreshArgs(1)) == [PVar(MN("m", 0))];
    assert qs[0] == SubstName(y, PCon(b, 0, PVars(FreshArgs(1))), ps[0]);
    assert qs[0].args == [SubstName(y, PCon(b, 0, PVars(FreshArgs(1))), PVar(MN("m", 0)))];
    assert qs == [PCon(a, 0, [PVar(MN("m", 0))]), PCon(b, 0, [PVar(MN("m", 0))])];
    assert InsertTree(0, 1, Unmatched) == Unmatched;
    assert BuildArgs(WeakenNs(1, [(2, 0)] + known), WeakenNs(1, []), qs, Unmatched) == [qs];
    HeightBelow(sc);
    BranchesBelow(2, [cb], sc.alts, known, [], Height(sc));
    OneBranch(y, 2, known, [], ps, MkAlt(Unmatched, cb), Height(sc));
    assert BuildArgs(known, [], ps, sc) == [qs];
    HeightBelow(t);
    BranchesBelow(0, [ca], t.alts, [], [], Height(t));
    OneBranch(x, 0, [], [], PVars([x, y]), MkAlt(inner, ca), Height(t));
    assert GetMissing([x, y], t) == [qs];
  }

  lemma OneBranch(x: Name, v: nat, known: Known, nots: Nots, ps: seq<Pat>, a: Alt, h: nat)
    requires a.ConCase? && Below([a], h)
    ensures BuildArgsAlts(x, v, known, nots, ps, [a], h) ==
            BuildArgs(WeakenNs(|a.args|, [(v, a.tag)] + known), WeakenNs(|a.args|, nots), Refine(x, a, ps), a.body)
  {
    assert BuildArgsAlts(x, v, known, AddNot(v, a.tag, nots), ps, [a][1..], h) == [];
  }

  /** A lone default over a type with one constructor becomes one branch. */
  lemma OneDefault(v: nat, c: DataCon, sc: Tree, known: Known, nots: Nots)
    requires FindTag(v, known).None? && FindTag(v, nots).None?
    ensures Branches(v, [c], [DefaultCase(sc)], known, nots) == [MkAlt(sc, c)]
  {
    var alt := MkAlt(sc, c);
    assert MkAlts(sc, [c]) == [alt];
    assert Rep([c], [DefaultCase(sc)]) == [alt] + Rep([c], [DefaultCase(sc)][1..]);
    assert Rep([c], [DefaultCase(sc)]) == [alt];
    assert DropRep([alt]) == [alt] + DropRep(Filter(a => !TagIs(alt.tag, a), [alt][1..]));
    assert MkAlts(Unmatched, [c]) == [MkAlt(Unmatched, c)];
    assert AltMatch(MkAlt(Unmatched, c), [alt][0]);
    assert MissingAlts([c], [alt]) == [];
  }
}

/** When the search reports nothing but unmatched tuples. */
module CoverageExact {
  import opened Base
  import opened Coverage
  import opened CoverageSound
  import opened CoveragePaths

  // ----- Trees whose matches all show up in the patterns -----

  /** A variable may still stand in the patterns, have been matched, or be a field of
      something matched a second time, which no pattern mentions. */
  datatype Trace = Live | Done | Lost

  function Enter(st: seq<Trace>, v: nat, k: nat): (r: seq<Trace>)
    requires v < |st|
    ensures |r| == k + |st|
  {
    seq(k, _ => if st[v] == Live then Live else Lost) + st[v := Done]
  }

  /** The tree never matches on a variable that no pattern mentions. */
  predicate Traceable(st: seq<Trace>, t: Tree)
    decreases t
  {
    t.Case? ==>
      && t.idx < |st| && st[t.idx] != Lost
      && (forall i :: 0 <= i < |t.alts| ==>
           match t.alts[i]
           case ConCase(_, _, args, b) => Traceable(Enter(st, t.idx, |args|), b)
           case DefaultCase(b) => Traceable(st[t.idx := Done], b))
  }

  predicate AltTraceable(st: seq<Trace>, v: nat, a: Alt)
    requires v < |st|
  {
    match a
    case ConCase(_, _, args, b) => Traceable(Enter(st, v, |args|), b)
    case DefaultCase(b) => Traceable(st[v := Done], b)
  }

  lemma EnterWeaken(a: seq<Trace>, m: seq<Trace>, b: seq<Trace>, v: nat, k: nat) returns (a': seq<Trace>, b': seq<Trace>)
    requires v < |a + b|
    ensures |a'| == k + |a| && Enter(a + b, v, k) == a' + b'
    ensures Enter(a + (m + b), if v < |a| then v else v + |m|, k) == a' + (m + b')
  {
    var v' := if v < |a| then v else v + |m|;
    var fields := seq(k, _ => if (a + b)[v] == Live then Live else Lost);
    a' := fields + if v < |a| then a[v := Done] else a;
    b' := if v < |a| then b else b[v - |a| := Done];
    assert (a + b)[v] == (a + (m + b))[v'];
    assert Enter(a + b, v, k) == a' + b';
    assert Enter(a + (m + b), v', k) == a' + (m + b');
  }

  lemma {:induction false} WeakenTraceable(a: seq<Trace>, m: seq<Trace>, b: seq<Trace>, t: Tree)
    requires Traceable(a + b, t)
    ensures Traceable(a + (m + b), InsertTree(|a|, |m|, t))
    decreases t, 0
  {
    if t.Case? {
      var t' := InsertTree(|a|, |m|, t);
      forall i | 0 <= i < |t.alts| ensures AltTraceable(a + (m + b), t'.idx, t'.alts[i]) {
        assert (t.alts decreases to t.alts[i]);
        WeakenAltTraceable(a, m, b, t.idx, t.alts[i]);
      }
    }
  }

  lemma {:induction false} WeakenAltTraceable(a: seq<Trace>, m: seq<Trace>, b: seq<Trace>, v: nat, alt: Alt)
    requires v < |a + b| && AltTraceable(a + b, v, alt)
    ensures
      var v' := if v < |a| then v else v + |m|;
      match alt
      case ConCase(_, _, args, sc) => Traceable(Enter(a + (m + b), v', |args|), InsertTree(|args| + |a|, |m|, sc))
      case DefaultCase(sc) => Traceable((a + (m + b))[v' := Done], InsertTree(|a|, |m|, sc))
    decreases alt, 0
  {
    hide InsertTree, Traceable, Enter;
    match alt
    case ConCase(_, _, args, sc) => WeakenUnder(a, m, b, v, |args|, sc);
    case DefaultCase(sc) =>
      EnterNone(a + b, v);
      WeakenUnder(a, m, b, v, 0, sc);
      EnterNone(a + (m + b), if v < |a| then v else v + |m|);
  }

  lemma {:induction false} WeakenUnder(a: seq<Trace>, m: seq<Trace>, b: seq<Trace>, v: nat, k: nat, sc: Tree)
    requires v < |a + b| && Traceable(Enter(a + b, v, k), sc)
    ensures Traceable(Enter(a + (m + b), if v < |a| then v else v + |m|, k), InsertTree(k + |a|, |m|, sc))
    decreases sc, 1
  {
    hide InsertTree, Traceable;
    var a', b' := EnterWeaken(a, m, b, v, k);
    WeakenTraceable(a', m, b', sc);
  }

  lemma EnterNone(st: seq<Trace>, v: nat)
    requires v < |st|
    ensures Enter(st, v, 0) == st[v := Done]
  {
  }

  lemma BranchTraceable(st: seq<Trace>, t: Tree, known: Known, nots: Nots, a: Alt)
    requires t.Case? && Traceable(st, t) && a in Branches(t.idx, t.cons, t.alts, known, nots)
    ensures AltTraceable(st, t.idx, a)
  {
    BranchOrigin(t.idx, t.cons, t.alts, known, nots, a);
    hide Branches;
    if a in t.alts {
      var i :| 0 <= i < |t.alts| && t.alts[i] == a;
    } else {
      var sc, c :| c in t.cons && (sc == Unmatched || DefaultCase(sc) in t.alts) && a == MkAlt(sc, c);
      if sc != Unmatched {
        var i :| 0 <= i < |t.alts| && t.alts[i] == DefaultCase(sc);
        var st' := Enter(st, t.idx, c.arity);
        assert st' == [] + (st'[..c.arity] + st[t.idx := Done]) && [] + st[t.idx := Done] == st[t.idx := Done];
        WeakenTraceable([], st'[..c.arity], st[t.idx := Done], sc);
      }
    }
  }

  // ----- Occurrences -----

  predicate Occurs(x: Name, p: Pat)
    decreases p
  {
    match p
    case PVar(y) => x == y
    case PCon(_, _, ps) => exists i :: 0 <= i < |ps| && Occurs(x, ps[i])
  }

  predicate OccursIn(x: Name, ps: seq<Pat>) { exists i :: 0 <= i < |ps| && Occurs(x, ps[i]) }

  /** Substitution makes a pattern more specific. */
  lemma {:induction false} SubstRefines(x: Name, new': Pat, p: Pat, v: Val)
    requires Matches(SubstName(x, new', p), v)
    ensures Matches(p, v)
    decreases p
  {
    if p.PCon? {
      var q := SubstName(x, new', p);
      forall i | 0 <= i < |p.args| ensures Matches(p.args[i], v.args[i]) {
        assert Matches(q.args[i], v.args[i]);
        SubstRefines(x, new', p.args[i], v.args[i]);
      }
    }
  }

  /** Where the substituted variable occurs, its value has the constructor's tag. */
  lemma {:induction false} SubstForces(scope: seq<Name>, rho: seq<Val>, idx: nat, new': Pat, p: Pat, v: Val)
    requires |scope| == |rho| && idx < |scope| && Denotes(scope, rho, p, v) && new'.PCon?
    requires forall j :: 0 <= j < |scope| && j != idx ==> scope[j] != scope[idx]
    requires Occurs(scope[idx], p) && Matches(SubstName(scope[idx], new', p), v)
    ensures rho[idx].tag == new'.tag
    decreases p
  {
    if p.PCon? {
      var q := SubstName(scope[idx], new', p);
      var i :| 0 <= i < |p.args| && Occurs(scope[idx], p.args[i]);
      assert Matches(q.args[i], v.args[i]);
      SubstForces(scope, rho, idx, new', p.args[i], v.args[i]);
    }
  }

  lemma {:induction false} SubstOccurs(x: Name, new': Pat, p: Pat, y: Name)
    requires (y != x && Occurs(y, p)) || (Occurs(x, p) && Occurs(y, new'))
    ensures Occurs(y, SubstName(x, new', p))
    decreases p
  {
    if p.PCon? {
      var i :| 0 <= i < |p.args| && ((y != x && Occurs(y, p.args[i])) || (Occurs(x, p.args[i]) && Occurs(y, new')));
      SubstOccurs(x, new', p.args[i], y);
      assert Occurs(y, SubstName(x, new', p).args[i]);
    }
  }

  lemma RefineOccurs(x: Name, a: Alt, ps: seq<Pat>, y: Name)
    requires a.ConCase? && ((y != x && OccursIn(y, ps)) || (OccursIn(x, ps) && y in a.args))
    ensures OccursIn(y, Refine(x, a, ps))
  {
    var new' := PCon(a.con, a.tag, PVars(a.args));
    if y in a.args {
      var j :| 0 <= j < |a.args| && a.args[j] == y;
      assert Occurs(y, PVars(a.args)[j]);
      assert Occurs(y, new');
    }
    var i :| 0 <= i < |ps| && ((y != x && Occurs(y, ps[i])) || (Occurs(x, ps[i]) && Occurs(y, new')));
    SubstOccurs(x, new', ps[i], y);
    assert Occurs(y, Refine(x, a, ps)[i]);
  }

  // ----- What the search returns is more specific than what it was given -----

  lemma {:induction false} BuildArgsRefines(known: Known, nots: Nots, ps: seq<Pat>, t: Tree, q: seq<Pat>, vs: seq<Val>)
    requires q in BuildArgs(known, nots, ps, t) && MatchesAll(q, vs)
    ensures MatchesAll(ps, vs)
    decreases Height(t), 1
  {
    if t.Case? {
      var a, nots' := Taken(known, nots, ps, t, q);
      hide Branches, BuildArgs;
      BranchLower(t, known, nots, a);
      if a.ConCase? {
        BuildArgsRefines(WeakenNs(|a.args|, [(t.idx, a.tag)] + known), WeakenNs(|a.args|, nots'), Refine(t.x, a, ps), a.body, q, vs);
        RefineRefines(t.x, a, ps, vs);
      } else {
        BuildArgsRefines(known, nots', ps, a.body, q, vs);
      }
    }
  }

  lemma RefineRefines(x: Name, a: Alt, ps: seq<Pat>, vs: seq<Val>)
    requires a.ConCase? && MatchesAll(Refine(x, a, ps), vs)
    ensures MatchesAll(ps, vs)
  {
    forall i | 0 <= i < |ps| ensures Matches(ps[i], vs[i]) {
      assert Matches(Refine(x, a, ps)[i], vs[i]);
      SubstRefines(x, PCon(a.con, a.tag, PVars(a.args)), ps[i], vs[i]);
    }
  }

  lemma BranchLower(t: Tree, known: Known, nots: Nots, a: Alt)
    requires t.Case? && a in Branches(t.idx, t.cons, t.alts, known, nots)
    ensures Height(a.body) < Height(t)
  {
    HeightBelow(t);
    BranchesBelow(t.idx, t.cons, t.alts, known, nots, Height(t));
  }

  /** The result comes from one of the branches. */
  lemma Taken(known: Known, nots: Nots, ps: seq<Pat>, t: Tree, q: seq<Pat>) returns (a: Alt, nots': Nots)
    requires t.Case? && q in BuildArgs(known, nots, ps, t)
    ensures a in Branches(t.idx, t.cons, t.alts, known, nots)
    ensures q in if a.ConCase? then
                   BuildArgs(WeakenNs(|a.args|, [(t.idx, a.tag)] + known), WeakenNs(|a.args|, nots'), Refine(t.x, a, ps), a.body)
                 else BuildArgs(known, nots', ps, a.body)
  {
    HeightBelow(t);
    BranchesBelow(t.idx, t.cons, t.alts, known, nots, Height(t));
    hide Branches;
    a, nots' := TakenAlt(t.x, t.idx, known, nots, ps, Branches(t.idx, t.cons, t.alts, known, nots), Height(t), q);
  }

  lemma {:induction false} TakenAlt(x: Name, v: nat, known: Known, nots: Nots, ps: seq<Pat>, alts: seq<Alt>, h: nat, q: seq<Pat>)
    returns (a: Alt, nots': Nots)
    requires Below(alts, h) && q in BuildArgsAlts(x, v, known, nots, ps, alts, h)
    ensures a in alts
    ensures q in if a.ConCase? then
                   BuildArgs(WeakenNs(|a.args|, [(v, a.tag)] + known), WeakenNs(|a.args|, nots'), Refine(x, a, ps), a.body)
                 else BuildArgs(known, nots', ps, a.body)
    decreases |alts|
  {
    a, nots' := alts[0], nots;
    if a.ConCase? {
      if q !in BuildArgs(WeakenNs(|a.args|, [(v, a.tag)] + known), WeakenNs(|a.args|, nots), Refine(x, a, ps), a.body) {
        a, nots' := TakenAlt(x, v, known, AddNot(v, a.tag, nots), ps, alts[1..], h, q);
      }
    } else if q !in BuildArgs(known, nots, ps, a.body) {
      a, nots' := TakenAlt(x, v, known, nots, ps, alts[1..], h, q);
    }
  }

  // ----- Every variable that can be matched on is accounted for -----

  ghost predicate Accounted(scope: seq<Name>, st: seq<Trace>, known: Known, ps: seq<Pat>) {
    |st| == |scope| && forall j :: 0 <= j < |st| ==>
      (st[j] == Live ==> OccursIn(scope[j], ps)) && (st[j] == Done ==> FindTag(j, known).Some?)
  }

  lemma AccountedRefine(scope: seq<Name>, st: seq<Trace>, known: Known, ps: seq<Pat>, v: nat, a: Alt)
    requires Accounted(scope, st, known, ps) && v < |scope| && a.ConCase?
    requires forall j :: 0 <= j < |scope| && j != v ==> scope[j] != scope[v]
    ensures Accounted(a.args + scope, Enter(st, v, |a.args|), WeakenNs(|a.args|, [(v, a.tag)] + known), Refine(scope[v], a, ps))
  {
    var k := |a.args|;
    var scope', st', ks := a.args + scope, Enter(st, v, k), [(v, a.tag)] + known;
    var known', ps' := WeakenNs(k, ks), Refine(scope[v], a, ps);
    assert ks[1..] == known;
    hide WeakenNs, Refine;
    forall j | 0 <= j < |st'|
      ensures (st'[j] == Live ==> OccursIn(scope'[j], ps')) && (st'[j] == Done ==> FindTag(j, known').Some?)
    {
      if j >= k {
        FindTagWeaken(k, ks, j - k);
        if st'[j] == Live { RefineOccurs(scope[v], a, ps, scope[j - k]); }
      } else if st'[j] == Live {
        assert scope'[j] in a.args;
        RefineOccurs(scope[v], a, ps, scope'[j]);
      }
    }
  }

  // ----- The branch taken -----

  function RunAlt(rho: seq<Val>, v: Val, a: Alt): Verdict
    requires a.ConCase?
  {
    if |a.args| == |v.args| then Run(v.args + rho, a.body) else IllTyped
  }

  lemma {:induction false} RunDistinct(rho: seq<Val>, v: Val, alts: seq<Alt>, a: Alt)
    requires NoDefaults(alts) && a in DropRep(alts) && a.ConCase? && a.tag == v.tag
    ensures RunAlts(rho, v, DropRep(alts)) == RunAlt(rho, v, a)
    decreases |alts|
  {
    var f := b => !TagIs(alts[0].tag, b);
    var rest := Filter(f, alts[1..]);
    assert DropRep(alts)[1..] == DropRep(rest);
    FilterFrom(f, alts[1..]);
    FilterNoDefaults(f, alts[1..]);
    if a in DropRep(rest) {
      DropRepFrom(rest, a);
      RunDistinct(rho, v, rest, a);
    }
  }

  lemma NotCovered(a: Alt, alts: seq<Alt>)
    requires a.ConCase? && forall b :: b in alts ==> !AltMatch(a, b)
    ensures !Covers(alts, a.tag)
  {
    if i :| 0 <= i < |alts| && alts[i].ConCase? && alts[i].tag == a.tag { assert AltMatch(a, alts[i]); }
  }

  /** A branch with the value's tag decides what the whole block does. */
  lemma BranchDecides(rho: seq<Val>, v: nat, cons: seq<DataCon>, altsIn: seq<Alt>, known: Known, nots: Nots, a: Alt)
    requires v < |rho| && HasType(rho[v], cons)
    requires a in Branches(v, cons, altsIn, known, nots) && a.ConCase? && a.tag == rho[v].tag
    ensures RunAlts(rho, rho[v], altsIn) == RunAlt(rho, rho[v], a) || RunAlts(rho, rho[v], altsIn) == NoMatch
  {
    var rep := Rep(cons, altsIn);
    var alts := DropRep(rep);
    BranchFrom(v, cons, altsIn, known, nots, a);
    RunRep(rho, rho[v], cons, altsIn);
    RunDropRep(rho, rho[v], rep);
    hide Branches, Rep, DropRep, RunAlts, MissingAlts, Run;
    if a in alts {
      RunDistinct(rho, rho[v], rep, a);
    } else {
      MissingFrom(cons, alts, a);
      NotCovered(a, alts);
      RunAppend(rho, rho[v], alts, []);
    }
  }

  // ----- Exactness -----

  /** In a branch that leads to a reported list the value has the branch's tag. */
  lemma TagForced(scope: seq<Name>, rho: seq<Val>, st: seq<Trace>, known: Known, nots: Nots, ps: seq<Pat>, vs: seq<Val>, t: Tree, a: Alt)
    requires |scope| == |rho| && t.Case? && t.idx < |scope| && scope[t.idx] == t.x
    requires forall j :: 0 <= j < |scope| && j != t.idx ==> scope[j] != t.x
    requires KnownOk(known, rho) && DenotesAll(scope, rho, ps, vs) && Accounted(scope, st, known, ps) && st[t.idx] != Lost
    requires a in Branches(t.idx, t.cons, t.alts, known, nots) && a.ConCase? && MatchesAll(Refine(t.x, a, ps), vs)
    ensures a.tag == rho[t.idx].tag
  {
    if st[t.idx] == Live {
      var new' := PCon(a.con, a.tag, PVars(a.args));
      var i :| 0 <= i < |ps| && Occurs(t.x, ps[i]);
      assert Matches(Refine(t.x, a, ps)[i], vs[i]);
      SubstForces(scope, rho, t.idx, new', ps[i], vs[i]);
    } else {
      BranchFrom(t.idx, t.cons, t.alts, known, nots, a);
      FindTagEntry(t.idx, known);
    }
  }

  lemma BranchFacts(scope: seq<Name>, st: seq<Trace>, t: Tree, known: Known, nots: Nots, a: Alt)
    requires t.Case? && WellNamed(scope, t) && Traceable(st, t) && a in Branches(t.idx, t.cons, t.alts, known, nots)
    ensures t.idx < |scope| && scope[t.idx] == t.x && forall j :: 0 <= j < |scope| && j != t.idx ==> scope[j] != t.x
    ensures t.idx < |st| && st[t.idx] != Lost && a.ConCase?
    ensures WellNamed(a.args + scope, a.body) && Traceable(Enter(st, t.idx, |a.args|), a.body)
  {
    BranchTraceable(st, t, known, nots, a);
    BranchOrigin(t.idx, t.cons, t.alts, known, nots, a);
    BranchesNamed(scope, t.idx, t.cons, t.alts, known, nots);
    hide Branches;
    var bs := Branches(t.idx, t.cons, t.alts, known, nots);
    var i :| 0 <= i < |bs| && bs[i] == a;
    assert AltNamed(scope, bs[i]);
  }

  lemma RefineDenotes(scope: seq<Name>, rho: seq<Val>, v: nat, a: Alt, ps: seq<Pat>, vs: seq<Val>)
    requires |scope| == |rho| && v < |scope| && DenotesAll(scope, rho, ps, vs)
    requires forall j :: 0 <= j < |scope| && j != v ==> scope[j] != scope[v]
    requires a.ConCase? && a.tag == rho[v].tag && |a.args| == |rho[v].args|
    ensures DenotesAll(a.args + scope, rho[v].args + rho, Refine(scope[v], a, ps), vs)
  {
    forall i | 0 <= i < |ps| ensures Denotes(a.args + scope, rho[v].args + rho, Refine(scope[v], a, ps)[i], vs[i]) {
      SubstDenotes(scope, rho, v, a, ps[i], vs[i]);
    }
  }

  /** Every tuple that is an instance of a returned pattern list is unmatched. */
  lemma {:induction false} BuildArgsExact(scope: seq<Name>, rho: seq<Val>, st: seq<Trace>, known: Known, nots: Nots,
                                          ps: seq<Pat>, vs: seq<Val>, t: Tree, q: seq<Pat>)
    requires |scope| == |rho| && WellNamed(scope, t) && Accounted(scope, st, known, ps) && Traceable(st, t)
    requires KnownOk(known, rho) && DenotesAll(scope, rho, ps, vs)
    requires q in BuildArgs(known, nots, ps, t) && MatchesAll(q, vs) && Run(rho, t) != IllTyped
    ensures Run(rho, t) == NoMatch
    decreases Height(t)
  {
    if t.Case? {
      var a, nots' := Taken(known, nots, ps, t, q);
      BranchFacts(scope, st, t, known, nots, a);
      BranchLower(t, known, nots, a);
      hide Branches, BuildArgs, DenotesAll, MatchesAll, WellNamed, Traceable, Accounted, RunAlts, Refine, KnownOk, WeakenNs, Height, Enter;
      var v, xs := t.idx, rho[t.idx].args;
      var known' := WeakenNs(|a.args|, [(v, a.tag)] + known);
      BuildArgsRefines(known', WeakenNs(|a.args|, nots'), Refine(t.x, a, ps), a.body, q, vs);
      TagForced(scope, rho, st, known, nots, ps, vs, t, a);
      BranchDecides(rho, v, t.cons, t.alts, known, nots, a);
      if Run(rho, t) != NoMatch {
        AccountedRefine(scope, st, known, ps, v, a);
        WeakenOk(known, [], xs, rho, v);
        RefineDenotes(scope, rho, v, a, ps, vs);
        BuildArgsExact(a.args + scope, xs + rho, Enter(st, v, |a.args|), known', WeakenNs(|a.args|, nots'),
                       Refine(t.x, a, ps), vs, a.body, q);
      }
    }
  }

  /** On trees that match only on variables the patterns mention, the reported lists
      describe exactly the tuples left unmatched. */
  lemma MissingExact(vars: seq<Name>, vs: seq<Val>, t: Tree)
    requires |vs| == |vars| && WellNamed(vars, t) && Traceable(seq(|vars|, _ => Live), t) && Run(vs, t) != IllTyped
    ensures Run(vs, t) == NoMatch <==> exists q :: q in GetMissing(vars, t) && MatchesAll(q, vs)
  {
    if Run(vs, t) == NoMatch { MissingSound(vars, vs, t); }
    if q :| q in GetMissing(vars, t) && MatchesAll(q, vs) {
      var ps, st := PVars(vars), seq(|vars|, _ => Live);
      forall i | 0 <= i < |vars| ensures Denotes(vars, vs, ps[i], vs[i]) && OccursIn(vars[i], ps) {
        assert vars[i] == ps[i].x && Occurs(vars[i], ps[i]);
      }
      hide Denotes, OccursIn, Run, BuildArgs, WellNamed, Traceable, Matches;
      assert Accounted(vars, st, [], ps);
      assert DenotesAll(vars, vs, ps, vs);
      BuildArgsExact(vars, vs, st, [], [], ps, vs, t, q);
    }
  }

  // ----- Matching twice -----

  lemma LoneRep(cons: seq<DataCon>, a: Alt)
    requires a.ConCase?
    ensures ReplaceDefaults(cons, [a]) == [a]
  {
    assert Rep(cons, [a]) == [a] + Rep(cons, [a][1..]);
    assert DropRep([a]) == [a] + DropRep(Filter(b => !TagIs(a.tag, b), [a][1..]));
  }

  /** A lone branch for a type's only constructor stays the only one. */
  lemma LoneBranch(v: nat, c: DataCon, a: Alt, known: Known)
    requires a.ConCase? && a.tag == c.tag && (FindTag(v, known).Some? ==> FindTag(v, known).value == c.tag)
    ensures Branches(v, [c], [a], known, []) == [a]
  {
    LoneRep([c], a);
    hide ReplaceDefaults;
    assert MkAlts(Unmatched, [c]) == [MkAlt(Unmatched, c)];
    assert AltMatch(MkAlt(Unmatched, c), [a][0]);
    assert MissingAlts([c], [a]) == [];
    if FindTag(v, known).Some? { assert Filter(b => TagIs(c.tag, b), [a]) == [a] + Filter(b => TagIs(c.tag, b), [a][1..]); }
  }

  /** One branch where the type has two constructors: the other one is added. */
  lemma AddedBranch(v: nat, c: DataCon, d: DataCon, a: Alt, known: Known)
    requires a.ConCase? && a.tag == c.tag != d.tag && FindTag(v, known).None?
    ensures Branches(v, [c, d], [a], known, []) == [a, MkAlt(Unmatched, d)]
  {
    LoneRep([c, d], a);
    OtherMissing(c, d, a);
    hide ReplaceDefaults, MissingAlts;
    assert [a] + [MkAlt(Unmatched, d)] == [a, MkAlt(Unmatched, d)];
  }

  lemma OtherMissing(c: DataCon, d: DataCon, a: Alt)
    requires a.ConCase? && a.tag == c.tag != d.tag
    ensures MissingAlts([c, d], [a]) == [MkAlt(Unmatched, d)]
  {
    var mc, md := MkAlt(Unmatched, c), MkAlt(Unmatched, d);
    var f := m => !exists i :: 0 <= i < |[a]| && AltMatch(m, [a][i]);
    assert MkAlts(Unmatched, [c, d]) == [mc, md];
    assert AltMatch(mc, [a][0]) && !AltMatch(md, [a][0]);
    hide Filter;
    FilterPair(f, mc, md);
  }

  lemma FilterPair(f: Alt -> bool, x: Alt, y: Alt)
    ensures Filter(f, [x, y]) == (if f(x) then [x] else []) + (if f(y) then [y] else [])
  {
    assert [x, y][1..] == [y] && [y][1..] == [];
    assert Filter(f, [y]) == (if f(y) then [y] else []) + Filter(f, []);
  }

  function Twice(x: Name, y: Name, z: Name, n: Name): Tree {
    var c := MkDataCon(n, 0, 1);
    var inner := Case(z, 0, [MkDataCon(n, 0, 0), MkDataCon(n, 1, 0)], [ConCase(n, 0, [], STerm)]);
    Case(x, 0, [c], [ConCase(n, 0, [y], Case(x, 1, [c], [ConCase(n, 0, [z], inner)]))])
  }

  lemma TwiceReports(x: Name, y: Name, z: Name, n: Name)
    requires x != y && y != z && x != z
    ensures GetMissing([x], Twice(x, y, z, n)) == [[PCon(n, 0, [PVar(y)])]]
  {
    var c, cb := MkDataCon(n, 0, 1), MkDataCon(n, 1, 0);
    var t := Twice(x, y, z, n);
    var u := t.alts[0].body;
    var w := u.alts[0].body;
    var ps := [PCon(n, 0, [PVar(y)])];
    var k1 := WeakenNs(1, [(0, 0)] + []);
    var k2 := WeakenNs(1, [(1, 0)] + k1);
    assert k1 == [(1, 0)] && k2 == [(2, 0), (2, 0)];
    assert k2[1..] == k1[1..] + [(2, 0)] && k1[1..] == [];
    LoneBranch(0, c, t.alts[0], []);
    LoneBranch(1, c, u.alts[0], k1);
    AddedBranch(0, MkDataCon(n, 0, 0), cb, w.alts[0], k2);
    hide Branches;
    PatternsStay(x, y, z, n, cb);
    assert WeakenNs<seq<int>>(1, []) == [] && WeakenNs<seq<int>>(0, []) == [];
    TwiceInner(z, k2, ps, w, cb);
    HeightBelow(u);
    BranchesBelow(1, [c], u.alts, k1, [], Height(u));
    OneBranch(x, 1, k1, [], ps, u.alts[0], Height(u));
    assert BuildArgs(k1, [], ps, u) == [ps];
    HeightBelow(t);
    BranchesBelow(0, [c], t.alts, [], [], Height(t));
    OneBranch(x, 0, [], [], PVars([x]), t.alts[0], Height(t));
  }

  lemma PatternsStay(x: Name, y: Name, z: Name, n: Name, cb: DataCon)
    requires x != y && y != z
    ensures
      var ps := [PCon(n, 0, [PVar(y)])];
      Refine(x, ConCase(n, 0, [y], STerm), PVars([x])) == ps && Refine(x, ConCase(n, 0, [z], STerm), ps) == ps &&
      Refine(z, MkAlt(Unmatched, cb), ps) == ps
  {
    var p := PCon(n, 0, [PVar(y)]);
    assert PVars([x]) == [PVar(x)] && PVars([y]) == [PVar(y)];
    assert SubstName(x, PCon(n, 0, PVars([z])), p).args == [PVar(y)];
    assert SubstName(z, PCon(cb.con, cb.tag, PVars(FreshArgs(cb.arity))), p).args == [PVar(y)];
  }

  lemma TwiceInner(z: Name, known: Known, ps: seq<Pat>, w: Tree, d: DataCon)
    requires w.Case? && w.x == z && |w.alts| == 1 && w.alts[0].ConCase? && w.alts[0].body == STerm
    requires Branches(w.idx, w.cons, w.alts, known, []) == [w.alts[0], MkAlt(Unmatched, d)]
    requires Refine(z, MkAlt(Unmatched, d), ps) == ps
    ensures BuildArgs(known, [], ps, w) == [ps]
  {
    var a, m, h := w.alts[0], MkAlt(Unmatched, d), Height(w);
    hide Branches;
    HeightBelow(w);
    BranchesBelow(w.idx, w.cons, w.alts, known, [], h);
    var nots := AddNot(w.idx, a.tag, []);
    assert Below([m], h);
    OneBranch(z, w.idx, known, nots, ps, m, h);
    assert [a, m][1..] == [m] && m.body == Unmatched;
    assert BuildArgsAlts(z, w.idx, known, nots, ps, [m], h) == [ps];
    assert BuildArgsAlts(z, w.idx, known, [], ps, [a, m], h) == [] + BuildArgsAlts(z, w.idx, known, nots, ps, [m], h);
  }

  /** A tree that matches a variable twice, and then a field of the second match, is
      not traceable: the list reported for it covers a tuple it does match. */
  lemma MatchingTwiceOverreports(x: Name, y: Name, z: Name, n: Name)
    requires x != y && y != z && x != z && forall v :: v in {x, z} ==> !Generated(v)
    ensures
      var t, vs := Twice(x, y, z, n), [V(0, [V(0, [])])];
      WellNamed([x], t) && !Traceable([Live], t) && Run(vs, t) == Reached &&
      exists q :: q in GetMissing([x], t) && MatchesAll(q, vs)
  {
    var t, q := Twice(x, y, z, n), [PCon(n, 0, [PVar(y)])];
    TwiceReports(x, y, z, n);
    assert q in GetMissing([x], t);
    assert Matches(PVar(y), V(0, []));
    assert MatchesAll(q, [V(0, [V(0, [])])]);
    TwiceNamed(x, y, z, n);
    TwiceLost(x, y, z, n);
    TwiceRuns(x, y, z, n);
  }

  lemma TwiceNamed(x: Name, y: Name, z: Name, n: Name)
    requires x != y && y != z && x != z && forall v :: v in {x, z} ==> !Generated(v)
    ensures WellNamed([x], Twice(x, y, z, n))
  {
    var t := Twice(x, y, z, n);
    var u := t.alts[0].body;
    var w := u.alts[0].body;
    assert x in {x, z} && z in {x, z};
    assert WellNamed([z] + ([y] + [x]), w);
    assert WellNamed([y] + [x], u);
  }

  lemma TwiceLost(x: Name, y: Name, z: Name, n: Name)
    ensures !Traceable([Live], Twice(x, y, z, n))
  {
    var t := Twice(x, y, z, n);
    var u := t.alts[0].body;
    var w := u.alts[0].body;
    var s1 := Enter([Live], 0, 1);
    assert s1 == [Live, Done];
    assert Enter(s1, 1, 1)[0] == Lost;
    assert !Traceable(Enter(s1, 1, |u.alts[0].args|), w);
    assert !Traceable(s1, u);
    assert !Traceable(Enter([Live], 0, |t.alts[0].args|), u);
  }

  lemma TwiceRuns(x: Name, y: Name, z: Name, n: Name)
    ensures Run([V(0, [V(0, [])])], Twice(x, y, z, n)) == Reached
  {
    var t := Twice(x, y, z, n);
    var u := t.alts[0].body;
    var w := u.alts[0].body;
    var b := V(0, []);
    var a := V(0, [b]);
    assert w.cons[0].tag == 0 && HasType(b, w.cons);
    assert u.cons[0].tag == 0 && HasType(a, u.cons);
    var rho := [b] + ([b] + [a]);
    assert rho[0] == b && RunAlts(rho, b, w.alts) == Run([] + rho, STerm) == Reached;
    assert Run(rho, w) == Reached;
    assert Run([b] + [a], u) == Reached;
  }
}

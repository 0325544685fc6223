/** Exactly which tuples the reported patterns cover, on every tree. */
module CoverageReports {
  import opened Base
  import opened Coverage
  import opened CoverageSound
  import opened CoveragePaths
  import opened CoverageExact

  // ----- Runs that forget -----

  /** What a run holds of the variables in scope. */
  type View = seq<Sight<Val>>

  function Opens(vs: seq<Val>): (r: View)
    ensures |r| == |vs|
  {
    seq(|vs|, i requires 0 <= i < |vs| => Open(vs[i]))
  }

  /** The fields of a variable matched for the first time are seen; those of one
      matched again are not. */
  function FieldsOf(fields: Option<seq<Val>>, k: nat): (r: View)
    ensures fields.Some? && |fields.value| == k ==> |r| == k
    ensures fields.None? ==> |r| == k
    ensures forall i :: 0 <= i < |r| ==> !r[i].Matched?
  {
    if fields.Some? then Opens(fields.value) else seq(k, _ => Hidden)
  }

  /** First-match evaluation that keeps only the tag of what it matched, so that a
      field seen on matching a variable again may be anything of its type: some such
      run finds no branch. */
  predicate MayMiss(rho: View, t: Tree)
    decreases t, 1
  {
    match t
    case Case(_, v, cons, alts) =>
      v < |rho| &&
      (match rho[v]
       case Open(x) => HasType(x, cons) && MayMissBy(rho[v := Matched(x.tag)], x.tag, Some(x.args), alts)
       case Matched(tag) => (exists i :: 0 <= i < |cons| && cons[i].tag == tag) && MayMissBy(rho, tag, None, alts)
       case Hidden => exists i :: 0 <= i < |cons| && MayMissBy(rho[v := Matched(cons[i].tag)], cons[i].tag, None, alts))
    case Unmatched => true
    case _ => false
  }

  predicate MayMissBy(rho: View, tag: int, fields: Option<seq<Val>>, alts: seq<Alt>)
    decreases alts, 0
  {
    if alts == [] then true
    else
      assert (alts decreases to alts[0]);
      match alts[0]
      case ConCase(_, t, args, b) =>
        if t == tag then (fields.Some? ==> |fields.value| == |args|) && MayMiss(FieldsOf(fields, |args|) + rho, b)
        else MayMissBy(rho, tag, fields, alts[1..])
      case DefaultCase(b) => MayMiss(rho, b)
  }

  // ----- Patterns over what is seen -----

  /** Generated names stand for anything; other variables for what is seen under them. */
  ghost predicate Shows(scope: seq<Name>, rho: View, p: Pat, v: Val)
    requires |scope| == |rho|
    decreases p
  {
    match p
    case PVar(x) => Generated(x) || exists j :: 0 <= j < |scope| && scope[j] == x && rho[j] == Open(v)
    case PCon(_, t, ps) =>
      v.tag == t && |v.args| == |ps| && forall i :: 0 <= i < |ps| ==> Shows(scope, rho, ps[i], v.args[i])
  }

  ghost predicate ShowsAll(scope: seq<Name>, rho: View, ps: seq<Pat>, vs: seq<Val>)
    requires |scope| == |rho|
  {
    |ps| == |vs| && forall i :: 0 <= i < |ps| ==> Shows(scope, rho, ps[i], vs[i])
  }

  /** Every variable that is seen occurs. */
  ghost predicate Mentioned(scope: seq<Name>, rho: View, ps: seq<Pat>)
    requires |scope| == |rho|
  {
    forall j :: 0 <= j < |scope| && rho[j].Open? ==> OccursIn(scope[j], ps)
  }

  /** Variable `v` has a name of its own. */
  predicate Named(scope: seq<Name>, v: nat) {
    v < |scope| && !Generated(scope[v]) && forall j :: 0 <= j < |scope| && j != v ==> scope[j] != scope[v]
  }

  lemma {:induction false} ShowsMatches(scope: seq<Name>, rho: View, p: Pat, v: Val)
    requires |scope| == |rho| && Shows(scope, rho, p, v)
    ensures Matches(p, v)
    decreases p
  {
    if p.PCon? {
      forall i | 0 <= i < |p.args| ensures Matches(p.args[i], v.args[i]) { ShowsMatches(scope, rho, p.args[i], v.args[i]); }
    }
  }

  /** A variable that is not seen does not occur, so refining it changes nothing. */
  lemma {:induction false} UnseenKept(scope: seq<Name>, rho: View, idx: nat, new': Pat, p: Pat, v: Val)
    requires |scope| == |rho| && Named(scope, idx) && !rho[idx].Open? && Shows(scope, rho, p, v)
    ensures SubstName(scope[idx], new', p) == p
    decreases p
  {
    if p.PCon? {
      forall i | 0 <= i < |p.args| ensures SubstName(scope[idx], new', p.args[i]) == p.args[i] {
        UnseenKept(scope, rho, idx, new', p.args[i], v.args[i]);
      }
      assert SubstName(scope[idx], new', p).args == p.args;
    }
  }

  /** Matching a variable that is not seen, with fields that are not seen either. */
  lemma {:induction false} ShowsUnder(scope: seq<Name>, rho: View, idx: nat, tag: int, args: seq<Name>, p: Pat, v: Val)
    requires |scope| == |rho| && idx < |scope| && !rho[idx].Open? && Shows(scope, rho, p, v)
    ensures Shows(args + scope, FieldsOf(None, |args|) + rho[idx := Matched(tag)], p, v)
    decreases p
  {
    var scope', rho' := args + scope, FieldsOf(None, |args|) + rho[idx := Matched(tag)];
    match p
    case PVar(x) =>
      if !Generated(x) {
        var j :| 0 <= j < |scope| && scope[j] == x && rho[j] == Open(v);
        assert scope'[|args| + j] == x && rho'[|args| + j] == Open(v);
      }
    case PCon(_, _, ps) =>
      forall i | 0 <= i < |ps| { ShowsUnder(scope, rho, idx, tag, args, ps[i], v.args[i]); }
  }

  /** Matching a variable that is seen: its fields are seen under `args`, or stand
      under generated names. */
  lemma {:induction false} ShowsRefined(scope: seq<Name>, rho: View, idx: nat, con: Name, args: seq<Name>, names: seq<Name>, p: Pat, v: Val)
    requires |scope| == |rho| && Named(scope, idx) && rho[idx].Open? && |names| == |rho[idx].v.args| && Shows(scope, rho, p, v)
    requires names == args || (args == [] && forall i :: 0 <= i < |names| ==> Generated(names[i]))
    ensures
      var x := rho[idx].v;
      var fields := if names == args then Opens(x.args) else [];
      Shows(args + scope, fields + rho[idx := Matched(x.tag)], SubstName(scope[idx], PCon(con, x.tag, PVars(names)), p), v)
    decreases p
  {
    var x := rho[idx].v;
    var fields := if names == args then Opens(x.args) else [];
    var scope', rho' := args + scope, fields + rho[idx := Matched(x.tag)];
    match p
    case PVar(y) =>
      if y == scope[idx] {
        forall i | 0 <= i < |names| ensures Shows(scope', rho', PVars(names)[i], v.args[i]) {
          if names == args { assert scope'[i] == args[i] && rho'[i] == Open(v.args[i]); }
        }
      } else if !Generated(y) {
        var j :| 0 <= j < |scope| && scope[j] == y && rho[j] == Open(v);
        assert scope'[|args| + j] == y && rho'[|args| + j] == Open(v);
      }
    case PCon(_, _, ps) =>
      forall i | 0 <= i < |ps| { ShowsRefined(scope, rho, idx, con, args, names, ps[i], v.args[i]); }
  }

  /** Where a variable that is seen occurs, a refined pattern matches only values with
      the constructor's tag and number of fields. */
  lemma {:induction false} SeenForces(scope: seq<Name>, rho: View, idx: nat, new': Pat, p: Pat, v: Val)
    requires |scope| == |rho| && Named(scope, idx) && rho[idx].Open? && Shows(scope, rho, p, v) && new'.PCon?
    requires Occurs(scope[idx], p) && Matches(SubstName(scope[idx], new', p), v)
    ensures rho[idx].v.tag == new'.tag && |rho[idx].v.args| == |new'.args|
    decreases p
  {
    if p.PCon? {
      var q := SubstName(scope[idx], new', p);
      var i :| 0 <= i < |p.args| && Occurs(scope[idx], p.args[i]);
      assert Matches(q.args[i], v.args[i]);
      SeenForces(scope, rho, idx, new', p.args[i], v.args[i]);
    }
  }

  lemma {:induction false} ReportedRefines(tags: Tags, ps: seq<Pat>, t: Tree, q: seq<Pat>, vs: seq<Val>)
    requires Reported(tags, ps, t, q) && MatchesAll(q, vs)
    ensures MatchesAll(ps, vs)
    decreases t, 1
  {
    if t.Case? {
      var i :| 0 <= i < |t.cons| && Allows(tags[t.idx], t.cons[i].tag) &&
               ReportedBy(tags[t.idx := Some(t.cons[i].tag)], t.x, ps, t.cons[i], t.alts, q);
      ReportedByRefines(tags[t.idx := Some(t.cons[i].tag)], t.x, ps, t.cons[i], t.alts, q, vs);
    }
  }

  lemma {:induction false} ReportedByRefines(tags: Tags, x: Name, ps: seq<Pat>, c: DataCon, alts: seq<Alt>, q: seq<Pat>, vs: seq<Val>)
    requires ReportedBy(tags, x, ps, c, alts, q) && MatchesAll(q, vs)
    ensures exists a :: AltFor(a, c, alts) && MatchesAll(Refine(x, a, ps), vs)
    ensures MatchesAll(ps, vs)
    decreases alts, 0
  {
    var a: Alt := MkAlt(Unmatched, c);
    if alts != [] {
      assert (alts decreases to alts[0]);
      if alts[0].DefaultCase? {
        ReportedRefines(tags, Refine(x, a, ps), alts[0].body, q, vs);
      } else if alts[0].tag == c.tag {
        a := alts[0];
        ReportedRefines(Nones(|a.args|) + tags, Refine(x, a, ps), a.body, q, vs);
      } else {
        ReportedByRefines(tags, x, ps, c, alts[1..], q, vs);
        a :| AltFor(a, c, alts[1..]) && MatchesAll(Refine(x, a, ps), vs);
      }
    }
    assert AltFor(a, c, alts);
    RefineRefines(x, a, ps, vs);
  }

  predicate AltFor(a: Alt, c: DataCon, alts: seq<Alt>) {
    a.ConCase? && a.tag == c.tag && (a == MkAlt(Unmatched, c) || a in alts)
  }

  // ----- One step -----

  /** The view after variable `v` was matched with constructor tag `tag`. */
  function Enter(rho: View, v: nat, tag: int, args: seq<Name>): (r: View)
    requires v < |rho| && (rho[v].Open? ==> |rho[v].v.args| == |args|)
    ensures |r| == |args| + |rho|
  {
    FieldsOf(if rho[v].Open? then Some(rho[v].v.args) else None, |args|) + rho[v := Matched(tag)]
  }

  /** The variable is not seen, or has that tag and number of fields. */
  predicate Fits(rho: View, v: nat, tag: int, k: nat)
    requires v < |rho|
  {
    rho[v].Open? ==> rho[v].v.tag == tag && |rho[v].v.args| == k
  }

  /** Taking a branch that binds the fields keeps what the patterns show. */
  lemma EnterShows(scope: seq<Name>, rho: View, v: nat, ps: seq<Pat>, vs: seq<Val>, a: Alt)
    requires |scope| == |rho| && Named(scope, v) && ShowsAll(scope, rho, ps, vs) && Mentioned(scope, rho, ps)
    requires a.ConCase? && Fits(rho, v, a.tag, |a.args|)
    ensures ShowsAll(a.args + scope, Enter(rho, v, a.tag, a.args), Refine(scope[v], a, ps), vs)
    ensures Mentioned(a.args + scope, Enter(rho, v, a.tag, a.args), Refine(scope[v], a, ps))
  {
    var scope', rho', ps' := a.args + scope, Enter(rho, v, a.tag, a.args), Refine(scope[v], a, ps);
    var new', k := PCon(a.con, a.tag, PVars(a.args)), |a.args|;
    forall i | 0 <= i < |ps| ensures Shows(scope', rho', ps'[i], vs[i]) {
      if rho[v].Open? { ShowsRefined(scope, rho, v, a.con, a.args, a.args, ps[i], vs[i]); }
      else {
        UnseenKept(scope, rho, v, new', ps[i], vs[i]);
        ShowsUnder(scope, rho, v, a.tag, a.args, ps[i], vs[i]);
      }
    }
    hide Shows, Refine, OccursIn;
    forall j | 0 <= j < |scope'| && rho'[j].Open? ensures OccursIn(scope'[j], ps') {
      if j < k { assert scope'[j] in a.args; }
      RefineOccurs(scope[v], a, ps, scope'[j]);
    }
  }

  /** So does taking a generated branch, whose names stand for anything. */
  lemma MadeShows(scope: seq<Name>, rho: View, v: nat, ps: seq<Pat>, vs: seq<Val>, c: DataCon)
    requires |scope| == |rho| && Named(scope, v) && ShowsAll(scope, rho, ps, vs) && Mentioned(scope, rho, ps)
    requires Fits(rho, v, c.tag, c.arity)
    ensures ShowsAll(scope, rho[v := Matched(c.tag)], Refine(scope[v], MkAlt(Unmatched, c), ps), vs)
    ensures Mentioned(scope, rho[v := Matched(c.tag)], Refine(scope[v], MkAlt(Unmatched, c), ps))
  {
    var a, rho' := MkAlt(Unmatched, c), rho[v := Matched(c.tag)];
    var ps', new' := Refine(scope[v], a, ps), PCon(a.con, a.tag, PVars(a.args));
    assert [] + scope == scope && FieldsOf(None, 0) + rho' == rho' && [] + rho' == rho' && Opens([]) + rho' == rho';
    forall i | 0 <= i < |ps| ensures Shows(scope, rho', ps'[i], vs[i]) {
      if rho[v].Open? { ShowsRefined(scope, rho, v, a.con, [], a.args, ps[i], vs[i]); }
      else {
        UnseenKept(scope, rho, v, new', ps[i], vs[i]);
        ShowsUnder(scope, rho, v, c.tag, [], ps[i], vs[i]);
      }
    }
    hide Shows, Refine, OccursIn;
    forall j | 0 <= j < |scope| && rho'[j].Open? ensures OccursIn(scope[j], ps') { RefineOccurs(scope[v], a, ps, scope[j]); }
  }

  // ----- The theorem -----

  /** The branches are well named and typed, and those for `c` bind its fields. */
  predicate AltsFor(scope: seq<Name>, c: DataCon, alts: seq<Alt>) {
    forall i :: 0 <= i < |alts| ==>
      match alts[i]
      case ConCase(_, tag, args, b) => WellNamed(args + scope, b) && Typed(|args + scope|, b) && (tag == c.tag ==> |args| == c.arity)
      case DefaultCase(b) => WellNamed(scope, b) && Typed(|scope|, b)
  }

  /** Some path reports a list the tuple is an instance of, exactly when some run that
      forgets finds no branch. */
  lemma {:induction false} PathsMiss(scope: seq<Name>, rho: View, ps: seq<Pat>, vs: seq<Val>, t: Tree)
    requires |scope| == |rho| && WellNamed(scope, t) && Typed(|scope|, t) && ShowsAll(scope, rho, ps, vs) && Mentioned(scope, rho, ps)
    ensures (exists q :: Reported(TagsOf(rho), ps, t, q) && MatchesAll(q, vs)) <==> MayMiss(rho, t)
    decreases t, 2
  {
    match t
    case Case(x, v, cons, alts) =>
      var tags := TagsOf(rho);
      forall i | 0 <= i < |cons|
        ensures (exists q :: ReportedBy(tags[v := Some(cons[i].tag)], x, ps, cons[i], alts, q) && MatchesAll(q, vs)) <==>
                Fits(rho, v, cons[i].tag, cons[i].arity) && Misses(rho, v, cons[i], alts)
      {
        AltsForCon(scope, t, i);
        PathsMissBy(scope, rho, ps, vs, v, cons[i], alts);
      }
      MayMissCase(rho, t);
      hide MayMiss, Misses, ReportedBy, MatchesAll, ShowsAll, Mentioned, WellNamed, Typed;
      if q :| Reported(tags, ps, t, q) && MatchesAll(q, vs) {
        var i :| 0 <= i < |cons| && Allows(tags[v], cons[i].tag) && ReportedBy(tags[v := Some(cons[i].tag)], x, ps, cons[i], alts, q);
        assert Fits(rho, v, cons[i].tag, cons[i].arity) && Misses(rho, v, cons[i], alts);
      }
      if MayMiss(rho, t) {
        var i :| 0 <= i < |cons| && Allows(tags[v], cons[i].tag) && Fits(rho, v, cons[i].tag, cons[i].arity) && Misses(rho, v, cons[i], alts);
        var q :| ReportedBy(tags[v := Some(cons[i].tag)], x, ps, cons[i], alts, q) && MatchesAll(q, vs);
        assert Reported(tags, ps, t, q);
      }
    case Unmatched =>
      forall i | 0 <= i < |ps| ensures Matches(ps[i], vs[i]) { ShowsMatches(scope, rho, ps[i], vs[i]); }
      assert Reported(TagsOf(rho), ps, t, ps) && MatchesAll(ps, vs);
    case _ =>
  }

  predicate Misses(rho: View, v: nat, c: DataCon, alts: seq<Alt>)
    requires v < |rho|
  {
    MayMissBy(rho[v := Matched(c.tag)], c.tag, if rho[v].Open? then Some(rho[v].v.args) else None, alts)
  }

  lemma MayMissCase(rho: View, t: Tree)
    requires t.Case? && t.idx < |rho| && DistinctTags(t.cons)
    ensures MayMiss(rho, t) <==> exists i ::
      0 <= i < |t.cons| && Allows(TagsOf(rho)[t.idx], t.cons[i].tag) && Fits(rho, t.idx, t.cons[i].tag, t.cons[i].arity) &&
      Misses(rho, t.idx, t.cons[i], t.alts)
  {
    var v, cons := t.idx, t.cons;
    if rho[v].Open? && HasType(rho[v].v, cons) {
      var i :| 0 <= i < |cons| && cons[i].tag == rho[v].v.tag;
      assert Fits(rho, v, cons[i].tag, cons[i].arity);
    }
    if rho[v].Matched? { assert rho[v := Matched(rho[v].tag)] == rho; }
  }

  lemma AltsForCon(scope: seq<Name>, t: Tree, i: nat)
    requires t.Case? && WellNamed(scope, t) && Typed(|scope|, t) && i < |t.cons|
    ensures Named(scope, t.idx) && AltsFor(scope, t.cons[i], t.alts)
  {
    forall j | 0 <= j < |t.alts| && t.alts[j].ConCase? && t.alts[j].tag == t.cons[i].tag ensures |t.alts[j].args| == t.cons[i].arity {
      var k :| 0 <= k < |t.cons| && t.cons[k].tag == t.alts[j].tag && t.cons[k].arity == |t.alts[j].args|;
      assert k == i;
    }
  }

  lemma {:induction false} PathsMissBy(scope: seq<Name>, rho: View, ps: seq<Pat>, vs: seq<Val>, v: nat, c: DataCon, alts: seq<Alt>)
    requires |scope| == |rho| && Named(scope, v) && AltsFor(scope, c, alts) && ShowsAll(scope, rho, ps, vs) && Mentioned(scope, rho, ps)
    ensures (exists q :: ReportedBy(TagsOf(rho)[v := Some(c.tag)], scope[v], ps, c, alts, q) && MatchesAll(q, vs)) <==>
            Fits(rho, v, c.tag, c.arity) && Misses(rho, v, c, alts)
    decreases alts, 1
  {
    if Fits(rho, v, c.tag, c.arity) {
      PathsMissFits(scope, rho, ps, vs, v, c, alts);
    } else if q :| ReportedBy(TagsOf(rho)[v := Some(c.tag)], scope[v], ps, c, alts, q) && MatchesAll(q, vs) {
      ReportedByRefines(TagsOf(rho)[v := Some(c.tag)], scope[v], ps, c, alts, q, vs);
      var a :| AltFor(a, c, alts) && MatchesAll(Refine(scope[v], a, ps), vs);
      var i :| 0 <= i < |ps| && Occurs(scope[v], ps[i]);
      assert Matches(Refine(scope[v], a, ps)[i], vs[i]);
      SeenForces(scope, rho, v, PCon(a.con, a.tag, PVars(a.args)), ps[i], vs[i]);
    }
  }

  lemma {:induction false} PathsMissFits(scope: seq<Name>, rho: View, ps: seq<Pat>, vs: seq<Val>, v: nat, c: DataCon, alts: seq<Alt>)
    requires |scope| == |rho| && Named(scope, v) && AltsFor(scope, c, alts) && ShowsAll(scope, rho, ps, vs) && Mentioned(scope, rho, ps)
    requires Fits(rho, v, c.tag, c.arity)
    ensures (exists q :: ReportedBy(TagsOf(rho)[v := Some(c.tag)], scope[v], ps, c, alts, q) && MatchesAll(q, vs)) <==> Misses(rho, v, c, alts)
    decreases alts, 0
  {
    var rho', made := rho[v := Matched(c.tag)], Refine(scope[v], MkAlt(Unmatched, c), ps);
    TagsOfMatched(rho, v, c.tag);
    if alts == [] || alts[0].DefaultCase? {
      MadeShows(scope, rho, v, ps, vs, c);
      if alts == [] {
        forall i | 0 <= i < |ps| ensures Matches(made[i], vs[i]) { ShowsMatches(scope, rho', made[i], vs[i]); }
        assert ReportedBy(TagsOf(rho'), scope[v], ps, c, alts, made) && MatchesAll(made, vs);
      } else {
        hide ShowsAll, Mentioned, MatchesAll;
        assert (alts decreases to alts[0]);
        PathsMiss(scope, rho', made, vs, alts[0].body);
      }
    } else if alts[0].tag == c.tag {
      var a := alts[0];
      assert (alts decreases to alts[0]);
      EnterShows(scope, rho, v, ps, vs, a);
      hide ShowsAll, Mentioned, MatchesAll;
      var fields := FieldsOf(if rho[v].Open? then Some(rho[v].v.args) else None, |a.args|);
      TagsOfFields(fields, rho');
      PathsMiss(a.args + scope, Enter(rho, v, a.tag, a.args), Refine(scope[v], a, ps), vs, a.body);
    } else {
      PathsMissFits(scope, rho, ps, vs, v, c, alts[1..]);
    }
  }

  ghost predicate Covered(vars: seq<Name>, t: Tree, vs: seq<Val>) { exists q :: q in GetMissing(vars, t) && MatchesAll(q, vs) }

  /** For every tree and tuple: a reported list covers the tuple if and only if some
      run that forgets finds no branch. */
  lemma CoveredIff(vars: seq<Name>, vs: seq<Val>, t: Tree)
    requires |vs| == |vars| && WellNamed(vars, t) && Typed(|vars|, t)
    ensures Covered(vars, t, vs) <==> MayMiss(Opens(vs), t)
  {
    var rho, ps := Opens(vs), PVars(vars);
    forall i | 0 <= i < |vars| ensures Shows(vars, rho, ps[i], vs[i]) && OccursIn(vars[i], ps) {
      assert vars[i] == ps[i].x && rho[i] == Open(vs[i]) && Occurs(vars[i], ps[i]);
    }
    hide Shows, OccursIn, Matches;
    PathsMiss(vars, rho, ps, vs, t);
    assert TagsOf(rho) == Nones(|vars|);
    forall q ensures q in GetMissing(vars, t) <==> Reported(TagsOf(rho), ps, t, q) { MissingIsPaths(vars, t, q); }
  }

  /** The reported lists describe exactly the unmatched tuples if and only if no tuple
      the tree decides has a run that forgets and finds no branch. */
  lemma MissingExactIff(vars: seq<Name>, t: Tree)
    requires WellNamed(vars, t) && Typed(|vars|, t)
    ensures
      (forall vs :: |vs| == |vars| && Run(vs, t) != IllTyped ==> (Run(vs, t) == NoMatch <==> Covered(vars, t, vs))) <==>
      (forall vs :: |vs| == |vars| && (Run(vs, t) == Reached || Run(vs, t) == Absurd) ==> !MayMiss(Opens(vs), t))
  {
    forall vs | |vs| == |vars| ensures Covered(vars, t, vs) <==> MayMiss(Opens(vs), t) { CoveredIff(vars, vs, t); }
    forall vs | |vs| == |vars| && Run(vs, t) == NoMatch ensures Covered(vars, t, vs) { MissingSound(vars, vs, t); }
  }
}

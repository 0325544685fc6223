/** When the lists of missing patterns use each name once. */
module CoverageNames {
  import opened Base
  import opened Coverage
  import opened CoveragePaths

  // ----- The variables of patterns -----

  /** How often a name occurs. */
  function Uses(y: Name, p: Pat): nat
    decreases p, 1
  {
    match p
    case PVar(x) => if x == y then 1 else 0
    case PCon(_, _, args) => UsesAll(y, args)
  }

  function UsesAll(y: Name, ps: seq<Pat>): nat
    decreases ps, 0
  {
    if ps == [] then 0
    else
      assert (ps decreases to ps[0]);
      Uses(y, ps[0]) + UsesAll(y, ps[1..])
  }

  /** No name stands for two things. */
  ghost predicate Linear(ps: seq<Pat>) { forall x :: UsesAll(x, ps) <= 1 }

  lemma {:induction false} SubstUnused(x: Name, new': Pat, p: Pat)
    requires Uses(x, p) == 0
    ensures SubstName(x, new', p) == p
    decreases p, 1
  {
    if p.PCon? { SubstUnusedAll(x, new', p.args, SubstName(x, new', p).args); }
  }

  lemma {:induction false} SubstUnusedAll(x: Name, new': Pat, ps: seq<Pat>, ts: seq<Pat>)
    requires |ts| == |ps| && forall i :: 0 <= i < |ps| ==> ts[i] == SubstName(x, new', ps[i])
    requires UsesAll(x, ps) == 0
    ensures ts == ps
    decreases ps, 0
  {
    if ps != [] {
      assert (ps decreases to ps[0]);
      SubstUnused(x, new', ps[0]);
      SubstUnusedAll(x, new', ps[1..], ts[1..]);
      assert ps == [ps[0]] + ps[1..] && ts == [ts[0]] + ts[1..];
    }
  }

  lemma {:induction false} SubstUses(x: Name, new': Pat, p: Pat, y: Name)
    requires Uses(x, p) == 1
    ensures Uses(y, SubstName(x, new', p)) == Uses(y, p) - (if x == y then 1 else 0) + Uses(y, new')
    decreases p, 1
  {
    if p.PCon? { SubstUsesAll(x, new', p.args, SubstName(x, new', p).args, y); }
  }

  lemma {:induction false} SubstUsesAll(x: Name, new': Pat, ps: seq<Pat>, ts: seq<Pat>, y: Name)
    requires |ts| == |ps| && forall i :: 0 <= i < |ps| ==> ts[i] == SubstName(x, new', ps[i])
    requires UsesAll(x, ps) == 1
    ensures UsesAll(y, ts) == UsesAll(y, ps) - (if x == y then 1 else 0) + Uses(y, new')
    decreases ps, 0
  {
    assert (ps decreases to ps[0]);
    if Uses(x, ps[0]) == 1 {
      SubstUses(x, new', ps[0], y);
      SubstUnusedAll(x, new', ps[1..], ts[1..]);
    } else {
      SubstUnused(x, new', ps[0]);
      SubstUsesAll(x, new', ps[1..], ts[1..], y);
    }
  }

  /** Refining a variable replaces it by the fields of the branch. */
  lemma RefineUses(x: Name, a: Alt, ps: seq<Pat>, y: Name)
    requires a.ConCase?
    ensures UsesAll(x, ps) == 0 ==> Refine(x, a, ps) == ps
    ensures UsesAll(x, ps) == 1 ==>
      UsesAll(y, Refine(x, a, ps)) == UsesAll(y, ps) - (if x == y then 1 else 0) + UsesAll(y, PVars(a.args))
  {
    var new' := PCon(a.con, a.tag, PVars(a.args));
    if UsesAll(x, ps) == 0 { SubstUnusedAll(x, new', ps, Refine(x, a, ps)); }
    if UsesAll(x, ps) == 1 { SubstUsesAll(x, new', ps, Refine(x, a, ps), y); }
  }

  // ----- Paths on which generated names repeat -----

  type Seen = seq<Sight<()>>

  function Fields(open: bool, k: nat): (r: Seen)
    ensures |r| == k && forall i :: 0 <= i < k ==> r[i] == if open then Open(()) else Hidden
  {
    seq(k, _ => if open then Open(()) else Hidden)
  }

  /** A generated branch puts names into the patterns if its constructor has fields
      and the patterns mention the variable. */
  function Count(g: nat, open: bool, c: DataCon): nat { if open && c.arity > 0 then g + 1 else g }

  /** Some path to an unmatched leaf passes two generated branches that put names into
      the patterns, when `g` were passed before. */
  predicate Repeats(st: Seen, g: nat, t: Tree)
    decreases t, 1
  {
    match t
    case Case(_, v, cons, alts) =>
      v < |st| && exists i ::
        0 <= i < |cons| && (st[v].Matched? ==> st[v].tag == cons[i].tag) &&
        RepeatsBy(st[v := Matched(cons[i].tag)], st[v].Open?, g, cons[i], alts)
    case Unmatched => g >= 2
    case _ => false
  }

  predicate RepeatsBy(st: Seen, open: bool, g: nat, c: DataCon, alts: seq<Alt>)
    decreases alts, 0
  {
    if alts == [] then Count(g, open, c) >= 2
    else
      assert (alts decreases to alts[0]);
      match alts[0]
      case ConCase(_, tag, args, b) =>
        if tag == c.tag then Repeats(Fields(open, |args|) + st, g, b) else RepeatsBy(st, open, g, c, alts[1..])
      case DefaultCase(b) => Repeats(st, Count(g, open, c), b)
  }

  /** The names the user wrote are distinct on each path, and not generated ones. */
  predicate NamesApart(scope: seq<Name>, t: Tree)
    decreases t
  {
    && (forall i :: 0 <= i < |scope| ==> !Generated(scope[i]))
    && (forall i, j :: 0 <= i < j < |scope| ==> scope[i] != scope[j])
    && (t.Case? ==>
         && t.idx < |scope| && scope[t.idx] == t.x
         && (forall i :: 0 <= i < |t.alts| ==>
              match t.alts[i]
              case ConCase(_, _, args, b) => NamesApart(args + scope, b)
              case DefaultCase(b) => NamesApart(scope, b)))
  }

  ghost predicate Visible(scope: seq<Name>, st: Seen, y: Name)
    requires |scope| == |st|
  {
    exists j :: 0 <= j < |scope| && scope[j] == y && st[j].Open?
  }

  /** The patterns mention each open variable once and no other name the user wrote,
      and went through `g` generated branches. */
  ghost predicate Tidy(scope: seq<Name>, st: Seen, g: nat, ps: seq<Pat>)
    requires |scope| == |st|
  {
    && UsesAll(MN("m", 0), ps) == g
    && forall y :: if Generated(y) then UsesAll(y, ps) <= g else UsesAll(y, ps) == if Visible(scope, st, y) then 1 else 0
  }

  lemma LinearIff(scope: seq<Name>, st: Seen, g: nat, ps: seq<Pat>)
    requires |scope| == |st| && Tidy(scope, st, g, ps)
    ensures Linear(ps) <==> g < 2
  {
    if g < 2 { forall x ensures UsesAll(x, ps) <= 1 { } }
  }

  predicate Apart(scope: seq<Name>) {
    (forall i :: 0 <= i < |scope| ==> !Generated(scope[i])) && (forall i, j :: 0 <= i < j < |scope| ==> scope[i] != scope[j])
  }

  /** A branch the user wrote, on a variable that is still open. */
  lemma TidyWritten(scope: seq<Name>, st: Seen, g: nat, ps: seq<Pat>, v: nat, a: Alt)
    requires |scope| == |st| && v < |scope| && st[v].Open? && Tidy(scope, st, g, ps) && a.ConCase? && Apart(a.args + scope)
    ensures Tidy(a.args + scope, Fields(true, |a.args|) + st[v := Matched(a.tag)], g, Refine(scope[v], a, ps))
  {
    var scope', st' := a.args + scope, Fields(true, |a.args|) + st[v := Matched(a.tag)];
    var x, ps' := scope[v], Refine(scope[v], a, ps);
    ApartParts(a.args, scope);
    assert !Generated(x) && Visible(scope, st, x);
    hide Refine, UsesAll, Generated, Visible;
    assert UsesAll(x, ps) == 1;
    forall y
      ensures UsesAll(y, ps') == if Generated(y) then UsesAll(y, ps) else if Visible(scope', st', y) then 1 else 0
    {
      RefineUses(x, a, ps, y);
      UsesDistinct(a.args, y);
      if !Generated(y) { WrittenVisible(scope, st, v, a, y); }
    }
    assert Generated(MN("m", 0)) by { FreshGenerated(0); }
  }

  lemma FreshGenerated(i: int)
    ensures Generated(MN("m", i))
  {
  }

  lemma ApartParts(args: seq<Name>, scope: seq<Name>)
    requires Apart(args + scope)
    ensures Apart(args) && Apart(scope) && forall i, j :: 0 <= i < |args| && 0 <= j < |scope| ==> args[i] != scope[j]
  {
    var all := args + scope;
    forall i, j | 0 <= i < |args| && 0 <= j < |scope| ensures args[i] != scope[j] { assert all[i] != all[|args| + j]; }
    forall i | 0 <= i < |args| ensures !Generated(args[i]) { assert all[i] == args[i]; }
    forall i | 0 <= i < |scope| ensures !Generated(scope[i]) { assert all[|args| + i] == scope[i]; }
    forall i, j | 0 <= i < j < |args| ensures args[i] != args[j] { assert all[i] != all[j]; }
    forall i, j | 0 <= i < j < |scope| ensures scope[i] != scope[j] { assert all[|args| + i] != all[|args| + j]; }
  }

  lemma {:induction false} UsesDistinct(xs: seq<Name>, y: Name)
    requires Apart(xs)
    ensures UsesAll(y, PVars(xs)) == (if y in xs then 1 else 0) && (Generated(y) ==> y !in xs)
    decreases |xs|
  {
    if xs != [] {
      var rest := xs[1..];
      assert xs == [xs[0]] + rest && PVars(xs)[1..] == PVars(rest);
      assert forall i :: 0 <= i < |rest| ==> rest[i] == xs[i + 1];
      UsesDistinct(rest, y);
    }
  }

  lemma WrittenVisible(scope: seq<Name>, st: Seen, v: nat, a: Alt, y: Name)
    requires |scope| == |st| && v < |scope| && a.ConCase? && Apart(a.args) && Apart(scope)
    requires forall i, j :: 0 <= i < |a.args| && 0 <= j < |scope| ==> a.args[i] != scope[j]
    ensures Visible(a.args + scope, Fields(true, |a.args|) + st[v := Matched(a.tag)], y) <==>
            y in a.args || (y != scope[v] && Visible(scope, st, y))
    ensures y in a.args ==> !Visible(scope, st, y) && y != scope[v]
  {
    var k := |a.args|;
    var scope', st' := a.args + scope, Fields(true, k) + st[v := Matched(a.tag)];
    if y in a.args {
      var i :| 0 <= i < k && a.args[i] == y;
      assert scope'[i] == y && st'[i].Open?;
    }
    if j :| 0 <= j < |scope| && scope[j] == y && st[j].Open? && y != scope[v] {
      assert scope'[k + j] == y && st'[k + j].Open?;
    }
    if j :| 0 <= j < |scope'| && scope'[j] == y && st'[j].Open? {
      if j >= k { assert scope[j - k] == y && j - k != v && st[j - k].Open?; }
    }
  }

  /** A generated branch on a variable that is still open. */
  lemma TidyGenerated(scope: seq<Name>, st: Seen, g: nat, ps: seq<Pat>, v: nat, c: DataCon)
    requires |scope| == |st| && v < |scope| && st[v].Open? && Tidy(scope, st, g, ps) && Apart(scope)
    ensures Tidy(scope, st[v := Matched(c.tag)], Count(g, true, c), Refine(scope[v], MkAlt(Unmatched, c), ps))
  {
    var x, a, st' := scope[v], MkAlt(Unmatched, c), st[v := Matched(c.tag)];
    var ps' := Refine(x, a, ps);
    assert !Generated(x) && Visible(scope, st, x);
    FreshGenerated(0);
    hide Refine, UsesAll, Visible, Generated;
    assert UsesAll(x, ps) == 1;
    forall y
      ensures UsesAll(y, ps') == if Generated(y) then UsesAll(y, ps) + (if y in FreshArgs(c.arity) then 1 else 0)
                                 else if Visible(scope, st', y) then 1 else 0
    {
      RefineUses(x, a, ps, y);
      FreshUses(c.arity, y);
      MatchedVisible(scope, st, v, c.tag, y);
    }
    FreshUses(c.arity, MN("m", 0));
  }

  lemma {:induction false} FreshUses(k: nat, y: Name)
    ensures UsesAll(y, PVars(FreshArgs(k))) == if y in FreshArgs(k) then 1 else 0
    ensures y in FreshArgs(k) <==> Generated(y) && 0 <= y.index < k
    decreases k
  {
    if k > 0 {
      FreshUses(k - 1, y);
      var xs := FreshArgs(k - 1);
      assert FreshArgs(k) == xs + [MN("m", k - 1)] && PVars(FreshArgs(k)) == PVars(xs) + [PVar(MN("m", k - 1))];
      UsesLast(y, PVars(xs), PVar(MN("m", k - 1)));
      if Generated(y) { assert y == MN("m", y.index); }
    }
  }

  lemma {:induction false} UsesLast(y: Name, ps: seq<Pat>, p: Pat)
    ensures UsesAll(y, ps + [p]) == UsesAll(y, ps) + Uses(y, p)
    decreases ps
  {
    if ps != [] {
      UsesLast(y, ps[1..], p);
      assert (ps + [p])[1..] == ps[1..] + [p];
    }
  }

  lemma MatchedVisible(scope: seq<Name>, st: Seen, v: nat, t: int, y: Name)
    requires |scope| == |st| && v < |scope| && Apart(scope)
    ensures Visible(scope, st[v := Matched(t)], y) <==> y != scope[v] && Visible(scope, st, y)
  {
    if j :| 0 <= j < |scope| && scope[j] == y && st[j].Open? && y != scope[v] {
      assert st[v := Matched(t)][j].Open?;
    }
  }

  /** A branch on a variable the patterns do not mention. */
  lemma TidyUnseen(scope: seq<Name>, st: Seen, g: nat, ps: seq<Pat>, v: nat, t: int, a: Alt, args: seq<Name>)
    requires |scope| == |st| && v < |scope| && !st[v].Open? && Tidy(scope, st, g, ps) && Apart(scope) && a.ConCase?
    ensures Refine(scope[v], a, ps) == ps && Tidy(args + scope, Fields(false, |args|) + st[v := Matched(t)], g, ps)
  {
    assert !Visible(scope, st, scope[v]);
    assert UsesAll(scope[v], ps) == 0;
    RefineUses(scope[v], a, ps, scope[v]);
    hide UsesAll, Refine, Visible;
    forall y ensures Visible(args + scope, Fields(false, |args|) + st[v := Matched(t)], y) <==> Visible(scope, st, y) {
      HiddenVisible(scope, st, v, t, args, y);
    }
  }

  lemma HiddenVisible(scope: seq<Name>, st: Seen, v: nat, t: int, args: seq<Name>, y: Name)
    requires |scope| == |st| && v < |scope| && !st[v].Open?
    ensures Visible(args + scope, Fields(false, |args|) + st[v := Matched(t)], y) <==> Visible(scope, st, y)
  {
    var k := |args|;
    var scope', st' := args + scope, Fields(false, k) + st[v := Matched(t)];
    if j :| 0 <= j < |scope| && scope[j] == y && st[j].Open? { assert scope'[k + j] == y && st'[k + j].Open?; }
    if j :| 0 <= j < |scope'| && scope'[j] == y && st'[j].Open? { assert scope[j - k] == y && st[j - k].Open?; }
  }

  // ----- The theorem -----

  /** From tidy patterns, some path reports a list with a repeated name exactly when
      some path repeats generated branches. */
  lemma {:induction false} PathsRepeat(scope: seq<Name>, st: Seen, g: nat, ps: seq<Pat>, t: Tree)
    requires |scope| == |st| && NamesApart(scope, t) && Tidy(scope, st, g, ps)
    ensures (exists q :: Reported(TagsOf(st), ps, t, q) && !Linear(q)) <==> Repeats(st, g, t)
    decreases t, 1
  {
    match t
    case Case(x, v, cons, alts) =>
      var tags := TagsOf(st);
      forall i | 0 <= i < |cons|
        ensures (exists q :: ReportedBy(tags[v := Some(cons[i].tag)], x, ps, cons[i], alts, q) && !Linear(q)) <==>
                RepeatsBy(st[v := Matched(cons[i].tag)], st[v].Open?, g, cons[i], alts)
      {
        PathsRepeatBy(scope, st, g, ps, v, cons[i], alts);
      }
      hide RepeatsBy, ReportedBy, Linear, Tidy;
      if q :| Reported(tags, ps, t, q) && !Linear(q) {
        var i :| 0 <= i < |cons| && Allows(tags[v], cons[i].tag) && ReportedBy(tags[v := Some(cons[i].tag)], x, ps, cons[i], alts, q);
        assert RepeatsBy(st[v := Matched(cons[i].tag)], st[v].Open?, g, cons[i], alts);
      }
      if Repeats(st, g, t) {
        var i :| 0 <= i < |cons| && (st[v].Matched? ==> st[v].tag == cons[i].tag) &&
                 RepeatsBy(st[v := Matched(cons[i].tag)], st[v].Open?, g, cons[i], alts);
        var q :| ReportedBy(tags[v := Some(cons[i].tag)], x, ps, cons[i], alts, q) && !Linear(q);
        assert Allows(tags[v], cons[i].tag);
        assert Reported(tags, ps, t, q);
      }
    case Unmatched =>
      LinearIff(scope, st, g, ps);
      assert Reported(TagsOf(st), ps, t, ps);
    case _ =>
  }

  predicate AltsApart(scope: seq<Name>, alts: seq<Alt>) {
    forall i :: 0 <= i < |alts| ==>
      match alts[i]
      case ConCase(_, _, args, b) => NamesApart(args + scope, b)
      case DefaultCase(b) => NamesApart(scope, b)
  }

  lemma {:induction false} PathsRepeatBy(scope: seq<Name>, st: Seen, g: nat, ps: seq<Pat>, v: nat, c: DataCon, alts: seq<Alt>)
    requires |scope| == |st| && v < |scope| && Apart(scope) && AltsApart(scope, alts) && Tidy(scope, st, g, ps)
    ensures (exists q :: ReportedBy(TagsOf(st)[v := Some(c.tag)], scope[v], ps, c, alts, q) && !Linear(q)) <==>
            RepeatsBy(st[v := Matched(c.tag)], st[v].Open?, g, c, alts)
    decreases alts, 0
  {
    var st', open, made := st[v := Matched(c.tag)], st[v].Open?, Refine(scope[v], MkAlt(Unmatched, c), ps);
    TagsOfMatched(st, v, c.tag);
    if alts == [] || alts[0].DefaultCase? {
      if open {
        TidyGenerated(scope, st, g, ps, v, c);
      } else {
        TidyUnseen(scope, st, g, ps, v, c.tag, MkAlt(Unmatched, c), []);
        assert [] + scope == scope && Fields(false, 0) + st' == st';
      }
      hide Tidy, Linear;
      if alts == [] {
        LinearIff(scope, st', Count(g, open, c), made);
        assert ReportedBy(TagsOf(st'), scope[v], ps, c, alts, made);
      } else {
        assert (alts decreases to alts[0]);
        PathsRepeat(scope, st', Count(g, open, c), made, alts[0].body);
      }
    } else if alts[0].tag == c.tag {
      var a := alts[0];
      assert (alts decreases to alts[0]);
      var fields := Fields(open, |a.args|);
      assert Apart(a.args + scope) by { NamesApartScope(a.args + scope, a.body); }
      if open { TidyWritten(scope, st, g, ps, v, a); } else { TidyUnseen(scope, st, g, ps, v, c.tag, a, a.args); }
      hide Tidy, Linear;
      TagsOfFields(fields, st');
      PathsRepeat(a.args + scope, fields + st', g, Refine(scope[v], a, ps), a.body);
    } else {
      PathsRepeatBy(scope, st, g, ps, v, c, alts[1..]);
    }
  }

  lemma NamesApartScope(scope: seq<Name>, t: Tree)
    requires NamesApart(scope, t)
    ensures Apart(scope)
  {
  }

  /** The lists reported use each name once if and only if no path to an unmatched leaf
      passes two generated branches that put names into the patterns. */
  lemma MissingLinearIff(vars: seq<Name>, t: Tree)
    requires Typed(|vars|, t) && NamesApart(vars, t)
    ensures (forall q :: q in GetMissing(vars, t) ==> Linear(q)) <==> !Repeats(Fields(true, |vars|), 0, t)
  {
    var st, ps := Fields(true, |vars|), PVars(vars);
    assert TagsOf(st) == Nones(|vars|);
    TidyStart(vars, t);
    PathsRepeat(vars, st, 0, ps, t);
    forall q ensures q in GetMissing(vars, t) <==> Reported(TagsOf(st), ps, t, q) { MissingIsPaths(vars, t, q); }
  }

  lemma TidyStart(vars: seq<Name>, t: Tree)
    requires NamesApart(vars, t)
    ensures Tidy(vars, Fields(true, |vars|), 0, PVars(vars))
  {
    NamesApartScope(vars, t);
    hide UsesAll;
    forall y ensures UsesAll(y, PVars(vars)) == (if y in vars then 1 else 0) && (Generated(y) ==> y !in vars) { UsesDistinct(vars, y); }
    FreshGenerated(0);
    forall y ensures Visible(vars, Fields(true, |vars|), y) <==> y in vars {
      if y in vars {
        var j :| 0 <= j < |vars| && vars[j] == y;
        assert Fields(true, |vars|)[j].Open?;
      }
    }
  }

  /** Two defaults, one inside the other, over types whose constructors have fields. */
  lemma NestedDefaultsRepeat(x: Name, y: Name, a: DataCon, b: DataCon)
    requires x != y && !Generated(x) && !Generated(y) && a.arity > 0 && b.arity > 0
    ensures
      var t := Case(x, 0, [a], [DefaultCase(Case(y, 1, [b], [DefaultCase(Unmatched)]))]);
      exists q :: q in GetMissing([x, y], t) && !Linear(q)
  {
    var inner := Case(y, 1, [b], [DefaultCase(Unmatched)]);
    var t := Case(x, 0, [a], [DefaultCase(inner)]);
    var st := Fields(true, 2);
    var st1 := st[0 := Matched(a.tag)];
    assert NamesApart([x, y], Unmatched);
    assert NamesApart([x, y], inner);
    assert Typed(2, inner);
    assert Repeats(st1[1 := Matched(b.tag)], 2, Unmatched);
    assert RepeatsBy(st1[1 := Matched(b.tag)], true, 1, [b][0], inner.alts);
    assert st1[1].Open?;
    assert Repeats(st1, 1, inner);
    assert RepeatsBy(st1, true, 0, [a][0], t.alts);
    assert st[0].Open?;
    assert Repeats(st, 0, t);
    MissingLinearIff([x, y], t);
  }
}

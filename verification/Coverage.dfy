/** The search for patterns a case tree leaves unmatched, over data types
    (Core/Coverage.idr, with `mkAlt` and `tagIs` of Core/Case/Util.idr). */
module Coverage {
  import opened Base

  datatype DataCon = MkDataCon(con: Name, tag: int, arity: nat)

  /** A case node inspects variable `idx`, called `x`, of a type with constructors `cons`. */
  datatype Tree =
    | Case(x: Name, idx: nat, cons: seq<DataCon>, alts: seq<Alt>)
    | STerm
    | Unmatched
    | Impossible

  datatype Alt = ConCase(con: Name, tag: int, args: seq<Name>, body: Tree) | DefaultCase(body: Tree)

  function Height(t: Tree): nat
    decreases t, 1
  {
    match t
    case Case(_, _, _, alts) => 1 + MaxHeight(alts)
    case _ => 0
  }

  function MaxHeight(alts: seq<Alt>): nat
    decreases alts, 0
  {
    if alts == [] then 0
    else
      assert (alts decreases to alts[0]);
      var h, rest := Height(alts[0].body), MaxHeight(alts[1..]);
      if h > rest then h else rest
  }

  lemma {:induction false} MaxHeightBound(alts: seq<Alt>, i: nat)
    requires i < |alts|
    ensures Height(alts[i].body) <= MaxHeight(alts)
    decreases alts
  {
    if i > 0 { MaxHeightBound(alts[1..], i - 1); }
  }

  /** All branches are lower than `h`. */
  predicate Below(alts: seq<Alt>, h: nat) { forall i :: 0 <= i < |alts| ==> Height(alts[i].body) < h }

  /** Insert `k` unused variables after the first `outer` ones. */
  function InsertTree(outer: nat, k: nat, t: Tree): Tree
    decreases t
  {
    match t
    case Case(x, idx, cons, alts) =>
      Case(x, if idx < outer then idx else idx + k, cons,
           seq(|alts|, i requires 0 <= i < |alts| =>
             match alts[i]
             case ConCase(n, tag, args, b) => ConCase(n, tag, args, InsertTree(|args| + outer, k, b))
             case DefaultCase(b) => DefaultCase(InsertTree(outer, k, b))))
    case _ => t
  }

  /** Names that only `mkAlt` makes. */
  predicate Generated(x: Name) { x.MN? && x.root == "m" }

  function FreshArgs(k: nat): (xs: seq<Name>)
    ensures |xs| == k
  {
    seq(k, i => MN("m", i))
  }

  function MkAlt(sc: Tree, c: DataCon): Alt {
    ConCase(c.con, c.tag, FreshArgs(c.arity), InsertTree(0, c.arity, sc))
  }

  function MkAlts(sc: Tree, cons: seq<DataCon>): seq<Alt> {
    seq(|cons|, i requires 0 <= i < |cons| => MkAlt(sc, cons[i]))
  }

  function Filter(f: Alt -> bool, alts: seq<Alt>): (r: seq<Alt>)
    ensures |r| <= |alts|
  {
    if alts == [] then []
    else (if f(alts[0]) then [alts[0]] else []) + Filter(f, alts[1..])
  }

  predicate TagIs(t: int, a: Alt) { a.ConCase? ==> a.tag == t }

  predicate TagIsNot(ts: seq<int>, a: Alt) { a.ConCase? && a.tag !in ts }

  predicate AltMatch(a: Alt, b: Alt) { b.DefaultCase? || (a.ConCase? && a.tag == b.tag) }

  function Rep(cons: seq<DataCon>, alts: seq<Alt>): seq<Alt> {
    if alts == [] then []
    else (if alts[0].DefaultCase? then MkAlts(alts[0].body, cons) else [alts[0]]) + Rep(cons, alts[1..])
  }

  function DropRep(alts: seq<Alt>): seq<Alt>
    decreases |alts|
  {
    if alts == [] then []
    else if alts[0].ConCase? then [alts[0]] + DropRep(Filter(a => !TagIs(alts[0].tag, a), alts[1..]))
    else [alts[0]] + DropRep(alts[1..])
  }

  function ReplaceDefaults(cons: seq<DataCon>, alts: seq<Alt>): seq<Alt> { DropRep(Rep(cons, alts)) }

  function MissingAlts(cons: seq<DataCon>, alts: seq<Alt>): seq<Alt> {
    Filter(c => !exists i :: 0 <= i < |alts| && AltMatch(c, alts[i]), MkAlts(Unmatched, cons))
  }

  // What is known of the variables in scope: a tag, or tags that are excluded.
  type Known = seq<(nat, int)>
  type Nots = seq<(nat, seq<int>)>

  function WeakenNs<T>(k: nat, known: seq<(nat, T)>): seq<(nat, T)> {
    seq(|known|, i requires 0 <= i < |known| => (known[i].0 + k, known[i].1))
  }

  function FindTag<T>(v: nat, known: seq<(nat, T)>): Option<T> {
    if known == [] then None
    else if known[0].0 == v then Some(known[0].1)
    else FindTag(v, known[1..])
  }

  function AddNot(v: nat, t: int, nots: Nots): Nots {
    if nots == [] then [(v, [t])]
    else if nots[0].0 == v then [(v, [t] + nots[0].1)] + nots[1..]
    else [nots[0]] + AddNot(v, t, nots[1..])
  }

  /** The branches to look at: defaults expanded, missing ones added, and only those
      the variable can still take. */
  function Branches(v: nat, cons: seq<DataCon>, altsIn: seq<Alt>, known: Known, nots: Nots): seq<Alt> {
    var alts := ReplaceDefaults(cons, altsIn);
    var all := alts + MissingAlts(cons, alts);
    var tag, no := FindTag(v, known), FindTag(v, nots);
    var altsK := if tag.Some? then Filter(a => TagIs(tag.value, a), all) else all;
    if no.Some? then Filter(a => TagIsNot(no.value, a), altsK) else altsK
  }

  datatype Pat = PVar(x: Name) | PCon(con: Name, tag: int, args: seq<Pat>)

  function SubstName(x: Name, new': Pat, p: Pat): Pat
    decreases p
  {
    match p
    case PVar(y) => if x == y then new' else p
    case PCon(n, t, args) => PCon(n, t, seq(|args|, i requires 0 <= i < |args| => SubstName(x, new', args[i])))
  }

  function PVars(xs: seq<Name>): (ps: seq<Pat>)
    ensures |ps| == |xs|
  {
    seq(|xs|, i requires 0 <= i < |xs| => PVar(xs[i]))
  }

  function Refine(x: Name, a: Alt, ps: seq<Pat>): (r: seq<Pat>)
    requires a.ConCase?
    ensures |r| == |ps|
  {
    seq(|ps|, i requires 0 <= i < |ps| => SubstName(x, PCon(a.con, a.tag, PVars(a.args)), ps[i]))
  }

  // ----- Heights, for termination -----

  lemma {:induction false} InsertHeight(outer: nat, k: nat, t: Tree)
    ensures Height(InsertTree(outer, k, t)) == Height(t)
    decreases t, 1
  {
    if t.Case? { InsertMaxHeight(outer, k, t.alts, InsertTree(outer, k, t).alts); }
  }

  lemma {:induction false} InsertMaxHeight(outer: nat, k: nat, alts: seq<Alt>, alts': seq<Alt>)
    requires |alts'| == |alts|
    requires forall i :: 0 <= i < |alts| ==> alts'[i].body == InsertTree(if alts[i].ConCase? then |alts[i].args| + outer else outer, k, alts[i].body)
    ensures MaxHeight(alts') == MaxHeight(alts)
    decreases alts, 0
  {
    if alts != [] {
      assert (alts decreases to alts[0]);
      InsertHeight(if alts[0].ConCase? then |alts[0].args| + outer else outer, k, alts[0].body);
      InsertMaxHeight(outer, k, alts[1..], alts'[1..]);
    }
  }

  // ----- Where the branches come from -----

  /** A constructor branch as it was written, or one made for constructor `c` from a
      default or for want of any. */
  ghost predicate Origin(a: Alt, cons: seq<DataCon>, altsIn: seq<Alt>) {
    (a.ConCase? && a in altsIn) ||
    exists sc, c :: c in cons && (sc == Unmatched || DefaultCase(sc) in altsIn) && a == MkAlt(sc, c)
  }

  lemma {:induction false} FilterFrom(f: Alt -> bool, alts: seq<Alt>)
    ensures forall a :: a in Filter(f, alts) <==> a in alts && f(a)
  {
    if alts != [] {
      FilterFrom(f, alts[1..]);
      assert alts == [alts[0]] + alts[1..];
    }
  }

  lemma {:induction false} DropRepFrom(alts: seq<Alt>, a: Alt)
    requires a in DropRep(alts)
    ensures a in alts
    decreases |alts|
  {
    if alts[0].ConCase? && a != alts[0] {
      var f := b => !TagIs(alts[0].tag, b);
      DropRepFrom(Filter(f, alts[1..]), a);
      FilterFrom(f, alts[1..]);
    } else if a != alts[0] {
      DropRepFrom(alts[1..], a);
    }
  }

  lemma {:induction false} RepFrom(cons: seq<DataCon>, alts: seq<Alt>, a: Alt)
    requires a in Rep(cons, alts)
    ensures Origin(a, cons, alts)
    decreases alts
  {
    if alts[0].DefaultCase? && a in MkAlts(alts[0].body, cons) {
      var i :| 0 <= i < |cons| && a == MkAlt(alts[0].body, cons[i]);
      assert DefaultCase(alts[0].body) == alts[0];
    } else if a != alts[0] || alts[0].DefaultCase? {
      RepFrom(cons, alts[1..], a);
    }
  }

  lemma MissingFrom(cons: seq<DataCon>, alts: seq<Alt>, a: Alt)
    requires a in MissingAlts(cons, alts)
    ensures exists c :: c in cons && a == MkAlt(Unmatched, c)
    ensures forall b :: b in alts ==> !AltMatch(a, b)
  {
    FilterFrom(c => !exists i :: 0 <= i < |alts| && AltMatch(c, alts[i]), MkAlts(Unmatched, cons));
    var i :| 0 <= i < |cons| && a == MkAlt(Unmatched, cons[i]);
  }

  /** The branches looked at are the written and the missing ones that pass both
      filters. */
  lemma BranchFrom(v: nat, cons: seq<DataCon>, altsIn: seq<Alt>, known: Known, nots: Nots, a: Alt)
    ensures
      var alts := ReplaceDefaults(cons, altsIn);
      a in Branches(v, cons, altsIn, known, nots) <==>
        && (a in alts || a in MissingAlts(cons, alts))
        && (FindTag(v, known).Some? ==> TagIs(FindTag(v, known).value, a))
        && (FindTag(v, nots).Some? ==> TagIsNot(FindTag(v, nots).value, a))
  {
    var alts := ReplaceDefaults(cons, altsIn);
    var all := alts + MissingAlts(cons, alts);
    var tag, no := FindTag(v, known), FindTag(v, nots);
    hide ReplaceDefaults, MissingAlts;
    if tag.Some? { FilterFrom(a => TagIs(tag.value, a), all); }
    var altsK := if tag.Some? then Filter(a => TagIs(tag.value, a), all) else all;
    if no.Some? { FilterFrom(a => TagIsNot(no.value, a), altsK); }
  }

  lemma BranchOrigin(v: nat, cons: seq<DataCon>, altsIn: seq<Alt>, known: Known, nots: Nots, a: Alt)
    requires a in Branches(v, cons, altsIn, known, nots)
    ensures Origin(a, cons, altsIn)
  {
    var alts := ReplaceDefaults(cons, altsIn);
    BranchFrom(v, cons, altsIn, known, nots, a);
    hide Branches, MissingAlts, MkAlt;
    if a in alts {
      DropRepFrom(Rep(cons, altsIn), a);
      RepFrom(cons, altsIn, a);
    } else {
      MissingFrom(cons, alts, a);
    }
  }

  lemma BranchesBelow(v: nat, cons: seq<DataCon>, altsIn: seq<Alt>, known: Known, nots: Nots, h: nat)
    requires Below(altsIn, h) && h > 0
    ensures Below(Branches(v, cons, altsIn, known, nots), h)
  {
    var bs := Branches(v, cons, altsIn, known, nots);
    forall i | 0 <= i < |bs| ensures Height(bs[i].body) < h {
      BranchOrigin(v, cons, altsIn, known, nots, bs[i]);
      if !(bs[i] in altsIn) {
        var sc, c :| c in cons && (sc == Unmatched || DefaultCase(sc) in altsIn) && bs[i] == MkAlt(sc, c);
        InsertHeight(0, c.arity, sc);
      }
    }
  }

  lemma HeightBelow(t: Tree)
    requires t.Case?
    ensures Below(t.alts, Height(t)) && Height(t) > 0
  {
    forall i | 0 <= i < |t.alts| ensures Height(t.alts[i].body) < Height(t) { MaxHeightBound(t.alts, i); }
  }

  // ----- The search -----

  /** The patterns of the arguments `ps`, refined along the path, of every leaf that
      is not matched. */
  function BuildArgs(known: Known, nots: Nots, ps: seq<Pat>, t: Tree): seq<seq<Pat>>
    decreases Height(t), 1, 0
  {
    match t
    case Case(x, v, cons, altsIn) =>
      HeightBelow(t);
      BranchesBelow(v, cons, altsIn, known, nots, Height(t));
      BuildArgsAlts(x, v, known, nots, ps, Branches(v, cons, altsIn, known, nots), Height(t))
    case STerm => []
    case Unmatched => [ps]
    case Impossible => []
  }

  function BuildArgsAlts(x: Name, v: nat, known: Known, nots: Nots, ps: seq<Pat>, alts: seq<Alt>, ghost h: nat): seq<seq<Pat>>
    requires Below(alts, h)
    decreases h, 0, |alts|
  {
    if alts == [] then []
    else match alts[0]
      case ConCase(n, t, args, sc) =>
        BuildArgs(WeakenNs(|args|, [(v, t)] + known), WeakenNs(|args|, nots), Refine(x, alts[0], ps), sc) +
        BuildArgsAlts(x, v, known, AddNot(v, t, nots), ps, alts[1..], h)
      case DefaultCase(sc) =>
        BuildArgs(known, nots, ps, sc) + BuildArgsAlts(x, v, known, nots, ps, alts[1..], h)
  }

  function GetMissing(vars: seq<Name>, t: Tree): seq<seq<Pat>> { BuildArgs([], [], PVars(vars), t) }
}

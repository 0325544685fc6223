/** The search enumerates first-match paths: without expanding defaults, adding or
    dropping branches, shifting trees or keeping lists of excluded tags. */
module CoveragePaths {
  import opened Base
  import opened Coverage

  // ----- Trees over data types -----

  predicate DistinctTags(cons: seq<DataCon>) { forall i, j :: 0 <= i < j < |cons| ==> cons[i].tag != cons[j].tag }

  predicate HasCon(cons: seq<DataCon>, tag: int, arity: nat) {
    exists i :: 0 <= i < |cons| && cons[i].tag == tag && cons[i].arity == arity
  }

  /** Variables are in scope, the constructors of a type have distinct tags, and
      branches are for constructors of the type and bind its fields. */
  predicate Typed(n: nat, t: Tree)
    decreases t
  {
    t.Case? ==>
      && t.idx < n && DistinctTags(t.cons)
      && (forall i :: 0 <= i < |t.alts| ==>
           match t.alts[i]
           case ConCase(_, tag, args, b) => HasCon(t.cons, tag, |args|) && Typed(|args| + n, b)
           case DefaultCase(b) => Typed(n, b))
  }

  predicate AltTyped(n: nat, cons: seq<DataCon>, a: Alt) {
    match a
    case ConCase(_, tag, args, b) => HasCon(cons, tag, |args|) && Typed(|args| + n, b)
    case DefaultCase(b) => Typed(n, b)
  }

  // ----- Paths -----

  /** The tags that are known of the variables in scope. */
  type Tags = seq<Option<int>>

  function Nones(k: nat): (r: Tags)
    ensures |r| == k
  {
    seq(k, _ => None)
  }

  predicate Allows(tag: Option<int>, t: int) { tag.None? || tag.value == t }

  /** `q` is what the patterns become on a path to an unmatched leaf. Each match takes
      one constructor the variable may have, and the first branch for it. */
  ghost predicate Reported(tags: Tags, ps: seq<Pat>, t: Tree, q: seq<Pat>)
    decreases t, 1
  {
    match t
    case Case(x, v, cons, alts) =>
      v < |tags| && exists i ::
        0 <= i < |cons| && Allows(tags[v], cons[i].tag) && ReportedBy(tags[v := Some(cons[i].tag)], x, ps, cons[i], alts, q)
    case STerm => false
    case Unmatched => q == ps
    case Impossible => false
  }

  ghost predicate ReportedBy(tags: Tags, x: Name, ps: seq<Pat>, c: DataCon, alts: seq<Alt>, q: seq<Pat>)
    decreases alts, 0
  {
    if alts == [] then q == Refine(x, MkAlt(Unmatched, c), ps)
    else
      assert (alts decreases to alts[0]);
      match alts[0]
      case ConCase(_, tag, args, b) =>
        if tag == c.tag then Reported(Nones(|args|) + tags, Refine(x, alts[0], ps), b, q)
        else ReportedBy(tags, x, ps, c, alts[1..], q)
      case DefaultCase(b) => Reported(tags, Refine(x, MkAlt(Unmatched, c), ps), b, q)
  }

  /** What a path knows of a variable: the patterns still mention it, it was matched,
      or it is a field of a variable matched again, which no pattern mentions. */
  datatype Sight<T> = Open(v: T) | Matched(tag: int) | Hidden

  function TagsOf<T>(st: seq<Sight<T>>): (tags: Tags)
    ensures |tags| == |st|
  {
    seq(|st|, i requires 0 <= i < |st| => if st[i].Matched? then Some(st[i].tag) else None)
  }

  lemma TagsOfMatched<T>(st: seq<Sight<T>>, v: nat, t: int)
    requires v < |st|
    ensures TagsOf(st[v := Matched(t)]) == TagsOf(st)[v := Some(t)]
  {
  }

  lemma TagsOfFields<T>(fields: seq<Sight<T>>, st: seq<Sight<T>>)
    requires forall i :: 0 <= i < |fields| ==> !fields[i].Matched?
    ensures TagsOf(fields + st) == Nones(|fields|) + TagsOf(st)
  {
  }

  lemma {:induction false} ReportedWeaken(a: Tags, m: Tags, b: Tags, ps: seq<Pat>, t: Tree, q: seq<Pat>)
    ensures Reported(a + (m + b), ps, InsertTree(|a|, |m|, t), q) <==> Reported(a + b, ps, t, q)
    decreases t, 1
  {
    if t.Case? {
      var t' := InsertTree(|a|, |m|, t);
      var new', old' := a + (m + b), a + b;
      if t.idx < |old'| {
        assert new'[t'.idx] == old'[t.idx];
        forall i | 0 <= i < |t.cons|
          ensures ReportedBy(new'[t'.idx := Some(t.cons[i].tag)], t.x, ps, t.cons[i], t'.alts, q) <==>
                  ReportedBy(old'[t.idx := Some(t.cons[i].tag)], t.x, ps, t.cons[i], t.alts, q)
        {
          var tag := Some(t.cons[i].tag);
          var a' := if t.idx < |a| then a[t.idx := tag] else a;
          var b' := if t.idx < |a| then b else b[t.idx - |a| := tag];
          assert new'[t'.idx := tag] == a' + (m + b') && old'[t.idx := tag] == a' + b';
          ReportedByWeaken(a', m, b', t.x, ps, t.cons[i], t.alts, t'.alts, q);
        }
      }
    }
  }

  lemma {:induction false} ReportedByWeaken(a: Tags, m: Tags, b: Tags, x: Name, ps: seq<Pat>, c: DataCon,
                                            alts: seq<Alt>, alts': seq<Alt>, q: seq<Pat>)
    requires |alts'| == |alts|
    requires forall i :: 0 <= i < |alts| ==> alts'[i] == match alts[i]
                                                         case ConCase(n, t, args, sc) => ConCase(n, t, args, InsertTree(|args| + |a|, |m|, sc))
                                                         case DefaultCase(sc) => DefaultCase(InsertTree(|a|, |m|, sc))
    ensures ReportedBy(a + (m + b), x, ps, c, alts', q) <==> ReportedBy(a + b, x, ps, c, alts, q)
    decreases alts, 0
  {
    if alts != [] {
      assert (alts decreases to alts[0]);
      if alts[0].DefaultCase? {
        ReportedWeaken(a, m, b, Refine(x, MkAlt(Unmatched, c), ps), alts[0].body, q);
      } else if alts[0].tag == c.tag {
        var ns := Nones(|alts[0].args|);
        ReportedWeaken(ns + a, m, b, Refine(x, alts[0], ps), alts[0].body, q);
        assert ns + (a + (m + b)) == (ns + a) + (m + b) && ns + (a + b) == (ns + a) + b;
        assert Refine(x, alts'[0], ps) == Refine(x, alts[0], ps);
      } else {
        ReportedByWeaken(a, m, b, x, ps, c, alts[1..], alts'[1..], q);
      }
    }
  }

  // ----- The branch for a constructor -----

  /** The branch looked at for constructor `c`. */
  function Pick(c: DataCon, alts: seq<Alt>): (a: Alt)
    ensures a.ConCase? && a.tag == c.tag
  {
    if alts == [] then MkAlt(Unmatched, c)
    else if alts[0].DefaultCase? then MkAlt(alts[0].body, c)
    else if alts[0].tag == c.tag then alts[0]
    else Pick(c, alts[1..])
  }

  lemma {:induction false} PickReported(tags: Tags, x: Name, ps: seq<Pat>, c: DataCon, alts: seq<Alt>, q: seq<Pat>)
    ensures
      var a := Pick(c, alts);
      ReportedBy(tags, x, ps, c, alts, q) <==> Reported(Nones(|a.args|) + tags, Refine(x, a, ps), a.body, q)
    decreases alts
  {
    if alts == [] {
      assert InsertTree(0, c.arity, Unmatched) == Unmatched;
    } else if alts[0].DefaultCase? {
      var ns := Nones(c.arity);
      assert [] + (ns + tags) == ns + tags && [] + tags == tags;
      ReportedWeaken([], ns, tags, Refine(x, MkAlt(Unmatched, c), ps), alts[0].body, q);
      assert Refine(x, MkAlt(Unmatched, c), ps) == Refine(x, MkAlt(alts[0].body, c), ps);
    } else if alts[0].tag != c.tag {
      PickReported(tags, x, ps, c, alts[1..], q);
    }
  }

  /** The first branch with a tag. */
  function First(tag: int, alts: seq<Alt>): Option<Alt> {
    if alts == [] then None
    else if alts[0].ConCase? && alts[0].tag == tag then Some(alts[0])
    else First(tag, alts[1..])
  }

  lemma {:induction false} FirstAppend(tag: int, xs: seq<Alt>, ys: seq<Alt>)
    ensures First(tag, xs + ys) == if First(tag, xs).Some? then First(tag, xs) else First(tag, ys)
    decreases xs
  {
    if xs == [] { assert xs + ys == ys; } else {
      FirstAppend(tag, xs[1..], ys);
      assert (xs + ys)[1..] == xs[1..] + ys && (xs + ys)[0] == xs[0];
    }
  }

  lemma {:induction false} FirstIn(tag: int, alts: seq<Alt>)
    ensures First(tag, alts).Some? ==> First(tag, alts).value in alts && First(tag, alts).value.ConCase? && First(tag, alts).value.tag == tag
    ensures First(tag, alts).None? ==> forall a :: a in alts && a.ConCase? ==> a.tag != tag
    decreases alts
  {
    if alts != [] {
      FirstIn(tag, alts[1..]);
      assert alts == [alts[0]] + alts[1..];
    }
  }

  lemma {:induction false} FirstMade(sc: Tree, cons: seq<DataCon>, i: nat)
    requires DistinctTags(cons) && i < |cons|
    ensures First(cons[i].tag, MkAlts(sc, cons)) == Some(MkAlt(sc, cons[i]))
    decreases i
  {
    if i > 0 {
      assert DistinctTags(cons[1..]) && cons[1..][i - 1] == cons[i];
      FirstMade(sc, cons[1..], i - 1);
      assert MkAlts(sc, cons)[1..] == MkAlts(sc, cons[1..]);
      assert cons[0].tag != cons[i].tag;
    }
  }

  lemma {:induction false} FirstRep(cons: seq<DataCon>, alts: seq<Alt>, i: nat)
    requires DistinctTags(cons) && i < |cons|
    ensures
      var f := First(cons[i].tag, Rep(cons, alts));
      if f.Some? then f.value == Pick(cons[i], alts) else Pick(cons[i], alts) == MkAlt(Unmatched, cons[i])
    decreases alts
  {
    if alts != [] {
      FirstRep(cons, alts[1..], i);
      if alts[0].DefaultCase? {
        FirstMade(alts[0].body, cons, i);
        FirstAppend(cons[i].tag, MkAlts(alts[0].body, cons), Rep(cons, alts[1..]));
      } else {
        FirstAppend(cons[i].tag, [alts[0]], Rep(cons, alts[1..]));
        assert [alts[0]][1..] == [];
      }
    }
  }

  predicate AllCon(alts: seq<Alt>) { forall a :: a in alts ==> a.ConCase? }

  lemma {:induction false} FirstFilter(tag: int, t: int, alts: seq<Alt>)
    requires AllCon(alts)
    ensures First(tag, Filter(b => !TagIs(t, b), alts)) == if tag == t then None else First(tag, alts)
    decreases alts
  {
    if alts != [] {
      FirstFilter(tag, t, alts[1..]);
      var rest := Filter(b => !TagIs(t, b), alts[1..]);
      assert alts[0] in alts;
      if alts[0].tag == t { assert Filter(b => !TagIs(t, b), alts) == rest; }
      else { assert Filter(b => !TagIs(t, b), alts)[1..] == rest; }
    }
  }

  /** What is left when repeated branches are dropped are the first ones. */
  lemma {:induction false} DropRepIff(alts: seq<Alt>, a: Alt)
    requires AllCon(alts)
    ensures a in DropRep(alts) <==> a.ConCase? && First(a.tag, alts) == Some(a)
    decreases |alts|
  {
    if alts != [] {
      var h := alts[0];
      assert h in alts;
      var rest := Filter(b => !TagIs(h.tag, b), alts[1..]);
      FilterFrom(b => !TagIs(h.tag, b), alts[1..]);
      DropRepIff(rest, a);
      if a.ConCase? { FirstFilter(a.tag, h.tag, alts[1..]); }
      assert DropRep(alts) == [h] + DropRep(rest);
    }
  }

  lemma {:induction false} RepAllCon(cons: seq<DataCon>, alts: seq<Alt>)
    ensures AllCon(Rep(cons, alts))
  {
    if alts != [] { RepAllCon(cons, alts[1..]); }
  }

  lemma MissingIff(cons: seq<DataCon>, alts: seq<Alt>, a: Alt)
    requires AllCon(alts)
    ensures a in MissingAlts(cons, alts) <==>
            exists i :: 0 <= i < |cons| && a == MkAlt(Unmatched, cons[i]) && First(a.tag, alts).None?
  {
    var f := c => !exists i :: 0 <= i < |alts| && AltMatch(c, alts[i]);
    FilterFrom(f, MkAlts(Unmatched, cons));
    if a.ConCase? { FirstIn(a.tag, alts); }
    assert a in MkAlts(Unmatched, cons) <==> exists i :: 0 <= i < |cons| && a == MkAlt(Unmatched, cons[i]) by {
      if i :| 0 <= i < |cons| && a == MkAlt(Unmatched, cons[i]) { assert MkAlts(Unmatched, cons)[i] == a; }
    }
    if a in MkAlts(Unmatched, cons) && First(a.tag, alts).None? {
      forall i | 0 <= i < |alts| ensures !AltMatch(a, alts[i]) { assert alts[i] in alts; }
    }
    if a in MkAlts(Unmatched, cons) && First(a.tag, alts).Some? {
      var b := First(a.tag, alts).value;
      var i :| 0 <= i < |alts| && alts[i] == b;
      assert AltMatch(a, alts[i]);
    }
  }

  /** Nothing excluded is allowed. */
  ghost predicate NotExcluded(v: nat, known: Known, nots: Nots) {
    FindTag(v, nots).Some? ==> FindTag(v, known).Some? && FindTag(v, known).value !in FindTag(v, nots).value
  }

  predicate OfType(cons: seq<DataCon>, alts: seq<Alt>) {
    forall a :: a in alts && a.ConCase? ==> HasCon(cons, a.tag, |a.args|)
  }

  /** The branches looked at are those picked for the constructors allowed. */
  lemma BranchIff(v: nat, cons: seq<DataCon>, altsIn: seq<Alt>, known: Known, nots: Nots, a: Alt)
    requires DistinctTags(cons) && OfType(cons, altsIn) && NotExcluded(v, known, nots)
    ensures a in Branches(v, cons, altsIn, known, nots) <==>
            exists i :: 0 <= i < |cons| && Allows(FindTag(v, known), cons[i].tag) && a == Pick(cons[i], altsIn)
  {
    var rep := Rep(cons, altsIn);
    var alts := ReplaceDefaults(cons, altsIn);
    RepAllCon(cons, altsIn);
    DropRepIff(rep, a);
    DropRepAllCon(rep);
    BranchFrom(v, cons, altsIn, known, nots, a);
    MissingIff(cons, alts, a);
    hide Branches, MissingAlts, Rep, DropRep, MkAlt, Pick, FindTag;
    if a in Branches(v, cons, altsIn, known, nots) {
      var i := PickOf(cons, altsIn, a);
      assert Allows(FindTag(v, known), cons[i].tag);
    }
    if i :| 0 <= i < |cons| && Allows(FindTag(v, known), cons[i].tag) && a == Pick(cons[i], altsIn) {
      PickIs(cons, altsIn, i);
    }
  }

  lemma DropRepAllCon(alts: seq<Alt>)
    requires AllCon(alts)
    ensures AllCon(DropRep(alts))
  {
    forall a | a in DropRep(alts) ensures a.ConCase? { DropRepIff(alts, a); }
  }

  lemma PickOf(cons: seq<DataCon>, altsIn: seq<Alt>, a: Alt) returns (i: nat)
    requires DistinctTags(cons) && OfType(cons, altsIn)
    requires
      var alts := ReplaceDefaults(cons, altsIn);
      a in alts || a in MissingAlts(cons, alts)
    ensures i < |cons| && a == Pick(cons[i], altsIn)
  {
    var rep := Rep(cons, altsIn);
    var alts := ReplaceDefaults(cons, altsIn);
    RepAllCon(cons, altsIn);
    DropRepAllCon(rep);
    DropRepIff(rep, a);
    MissingIff(cons, alts, a);
    hide MissingAlts, Rep, DropRep, MkAlts;
    if a in alts {
      FirstIn(a.tag, rep);
      RepFrom(cons, altsIn, a);
      i := OriginCon(cons, altsIn, a);
      FirstRep(cons, altsIn, i);
    } else {
      i :| i < |cons| && a == MkAlt(Unmatched, cons[i]) && First(a.tag, alts).None?;
      FirstRep(cons, altsIn, i);
      if First(a.tag, rep).Some? {
        FirstIn(a.tag, rep);
        DropRepIff(rep, First(a.tag, rep).value);
        FirstIn(a.tag, alts);
      }
    }
  }

  lemma OriginCon(cons: seq<DataCon>, altsIn: seq<Alt>, a: Alt) returns (i: nat)
    requires OfType(cons, altsIn) && Origin(a, cons, altsIn)
    ensures i < |cons| && cons[i].tag == a.tag
  {
    if a in altsIn {
      i :| i < |cons| && cons[i].tag == a.tag;
    } else {
      var sc, c :| c in cons && (sc == Unmatched || DefaultCase(sc) in altsIn) && a == MkAlt(sc, c);
      i :| i < |cons| && cons[i] == c;
    }
  }

  lemma PickIs(cons: seq<DataCon>, altsIn: seq<Alt>, i: nat)
    requires DistinctTags(cons) && i < |cons|
    ensures
      var a, alts := Pick(cons[i], altsIn), ReplaceDefaults(cons, altsIn);
      a in alts || a in MissingAlts(cons, alts)
  {
    var a, rep := Pick(cons[i], altsIn), Rep(cons, altsIn);
    var alts := DropRep(rep);
    RepAllCon(cons, altsIn);
    DropRepAllCon(rep);
    FirstRep(cons, altsIn, i);
    FirstIn(a.tag, rep);
    DropRepIff(rep, a);
    MissingIff(cons, alts, a);
    FirstIn(a.tag, alts);
    if First(a.tag, rep).None? && First(a.tag, alts).Some? {
      DropRepFrom(rep, First(a.tag, alts).value);
    }
  }

  // ----- No tag comes up twice -----

  predicate Differ(a: Alt, b: Alt) { a.ConCase? && b.ConCase? && a.tag != b.tag }

  predicate Distinct(alts: seq<Alt>) { forall i, j :: 0 <= i < j < |alts| ==> Differ(alts[i], alts[j]) }

  lemma DistinctTail(alts: seq<Alt>)
    requires alts != [] && Distinct(alts)
    ensures Distinct(alts[1..])
  {
    var rest := alts[1..];
    forall i, j | 0 <= i < j < |rest| ensures Differ(rest[i], rest[j]) {
      assert rest[i] == alts[i + 1] && rest[j] == alts[j + 1];
    }
  }

  lemma {:induction false} FilterDistinct(f: Alt -> bool, alts: seq<Alt>)
    requires Distinct(alts)
    ensures Distinct(Filter(f, alts))
    decreases alts
  {
    if alts != [] {
      DistinctTail(alts);
      FilterDistinct(f, alts[1..]);
      FilterFrom(f, alts[1..]);
      var rest := Filter(f, alts[1..]);
      forall j | 0 <= j < |rest| ensures Differ(alts[0], rest[j]) {
        assert rest[j] in rest;
        var k :| 0 <= k < |alts[1..]| && alts[1..][k] == rest[j];
        assert alts[k + 1] == rest[j];
      }
    }
  }

  lemma {:induction false} DropRepDistinct(alts: seq<Alt>)
    requires AllCon(alts)
    ensures Distinct(DropRep(alts))
    decreases |alts|
  {
    if alts != [] {
      var f := b => !TagIs(alts[0].tag, b);
      var rest := Filter(f, alts[1..]);
      assert alts[0] in alts;
      FilterFrom(f, alts[1..]);
      DropRepDistinct(rest);
      forall j | 0 <= j < |DropRep(rest)| ensures DropRep(rest)[j].ConCase? && DropRep(rest)[j].tag != alts[0].tag {
        DropRepFrom(rest, DropRep(rest)[j]);
      }
      assert DropRep(alts) == [alts[0]] + DropRep(rest);
    }
  }

  lemma BranchesDistinct(v: nat, cons: seq<DataCon>, altsIn: seq<Alt>, known: Known, nots: Nots)
    requires DistinctTags(cons)
    ensures Distinct(Branches(v, cons, altsIn, known, nots)) && AllCon(Branches(v, cons, altsIn, known, nots))
  {
    var rep := Rep(cons, altsIn);
    RepAllCon(cons, altsIn);
    DropRepDistinct(rep);
    DropRepAllCon(rep);
    var alts := ReplaceDefaults(cons, altsIn);
    AllDistinct(cons, alts);
    var all := alts + MissingAlts(cons, alts);
    var tag, no := FindTag(v, known), FindTag(v, nots);
    hide Rep, DropRep, MissingAlts, Distinct;
    if tag.Some? { FilterDistinct(a => TagIs(tag.value, a), all); FilterFrom(a => TagIs(tag.value, a), all); }
    var altsK := if tag.Some? then Filter(a => TagIs(tag.value, a), all) else all;
    if no.Some? { FilterDistinct(a => TagIsNot(no.value, a), altsK); FilterFrom(a => TagIsNot(no.value, a), altsK); }
  }

  lemma AllDistinct(cons: seq<DataCon>, alts: seq<Alt>)
    requires DistinctTags(cons) && Distinct(alts) && AllCon(alts)
    ensures Distinct(alts + MissingAlts(cons, alts)) && AllCon(alts + MissingAlts(cons, alts))
  {
    var missing := MissingAlts(cons, alts);
    var all := alts + missing;
    FilterDistinct(c => !exists i :: 0 <= i < |alts| && AltMatch(c, alts[i]), MkAlts(Unmatched, cons));
    hide MissingAlts;
    forall j | 0 <= j < |missing| ensures missing[j].ConCase? && forall b :: b in alts ==> b.tag != missing[j].tag {
      MissingFrom(cons, alts, missing[j]);
      forall b | b in alts ensures b.tag != missing[j].tag { assert !AltMatch(missing[j], b); }
    }
  }

  // ----- The search -----

  ghost predicate KnownAs(tags: Tags, known: Known) { forall j :: 0 <= j < |tags| ==> FindTag(j, known) == tags[j] }

  ghost predicate NotsApart(tags: Tags, nots: Nots) {
    forall j :: 0 <= j < |tags| && FindTag(j, nots).Some? ==> tags[j].Some? && tags[j].value !in FindTag(j, nots).value
  }

  lemma {:induction false} FindTagWeaken<T>(k: nat, known: seq<(nat, T)>, j: nat)
    ensures FindTag(j + k, WeakenNs(k, known)) == FindTag(j, known)
    ensures j < k ==> FindTag(j, WeakenNs(k, known)).None?
    decreases known
  {
    if known != [] {
      FindTagWeaken(k, known[1..], j);
      assert WeakenNs(k, known)[1..] == WeakenNs(k, known[1..]);
    }
  }

  lemma {:induction false} FindTagAdded(v: nat, t: int, nots: Nots, j: nat)
    ensures FindTag(j, AddNot(v, t, nots)) ==
            if j != v then FindTag(j, nots)
            else Some(if FindTag(v, nots).Some? then [t] + FindTag(v, nots).value else [t])
    decreases nots
  {
    if nots != [] && nots[0].0 != v { FindTagAdded(v, t, nots[1..], j); }
  }

  /** Apart from variable `v`, of which the tags of `alts` are not excluded. */
  ghost predicate NotsApartBut(tags: Tags, v: nat, nots: Nots, alts: seq<Alt>) {
    && (forall j :: 0 <= j < |tags| && j != v && FindTag(j, nots).Some? ==> tags[j].Some? && tags[j].value !in FindTag(j, nots).value)
    && (forall a :: a in alts && a.ConCase? && FindTag(v, nots).Some? ==> a.tag !in FindTag(v, nots).value)
  }

  lemma EnterKnown(tags: Tags, v: nat, known: Known, k: nat, t: int)
    requires v < |tags| && KnownAs(tags, known)
    ensures KnownAs(Nones(k) + tags[v := Some(t)], WeakenNs(k, [(v, t)] + known))
  {
    var tags', ks := Nones(k) + tags[v := Some(t)], [(v, t)] + known;
    assert ks[1..] == known;
    forall j | 0 <= j < |tags'| ensures FindTag(j, WeakenNs(k, ks)) == tags'[j] {
      hide WeakenNs;
      FindTagWeaken(k, ks, if j < k then j else j - k);
    }
  }

  lemma EnterNots(tags: Tags, v: nat, nots: Nots, alts: seq<Alt>, k: nat, t: int)
    requires v < |tags| && alts != [] && alts[0].ConCase? && alts[0].tag == t && NotsApartBut(tags, v, nots, alts)
    ensures NotsApart(Nones(k) + tags[v := Some(t)], WeakenNs(k, nots))
  {
    var tags' := Nones(k) + tags[v := Some(t)];
    hide FindTag, WeakenNs;
    forall j | 0 <= j < |tags'| && FindTag(j, WeakenNs(k, nots)).Some?
      ensures tags'[j].Some? && tags'[j].value !in FindTag(j, WeakenNs(k, nots)).value
    {
      FindTagWeaken(k, nots, if j < k then j else j - k);
      if j >= k && j - k != v { assert tags'[j] == tags[j - k]; }
      if j - k == v { assert alts[0] in alts && tags'[j] == Some(t); }
    }
  }

  ghost predicate SomeBranch(tags: Tags, x: Name, v: nat, ps: seq<Pat>, alts: seq<Alt>, q: seq<Pat>)
    requires v < |tags| && AllCon(alts)
  {
    exists a :: a in alts && Reported(Nones(|a.args|) + tags[v := Some(a.tag)], Refine(x, a, ps), a.body, q)
  }

  /** The search returns exactly what the paths report. */
  lemma {:induction false} BuildIsPaths(tags: Tags, known: Known, nots: Nots, ps: seq<Pat>, t: Tree, q: seq<Pat>)
    requires Typed(|tags|, t) && KnownAs(tags, known) && NotsApart(tags, nots)
    ensures q in BuildArgs(known, nots, ps, t) <==> Reported(tags, ps, t, q)
    decreases Height(t), 1, 0
  {
    match t
    case Case(x, v, cons, altsIn) =>
      var bs := Branches(v, cons, altsIn, known, nots);
      HeightBelow(t);
      BranchesBelow(v, cons, altsIn, known, nots, Height(t));
      BranchesDistinct(v, cons, altsIn, known, nots);
      BranchesTyped(|tags|, t, known, nots);
      BranchesReport(tags, known, nots, ps, t, q);
      NothingExcluded(tags, v, cons, altsIn, known, nots);
      hide Branches, Reported, NotsApart, NotsApartBut, KnownAs, Typed, SomeBranch;
      AltsArePaths(tags, x, v, known, nots, ps, bs, Height(t), q);
    case _ =>
  }

  lemma {:induction false} AltsArePaths(tags: Tags, x: Name, v: nat, known: Known, nots: Nots, ps: seq<Pat>, alts: seq<Alt>, h: nat, q: seq<Pat>)
    requires v < |tags| && Below(alts, h) && AllCon(alts) && Distinct(alts)
    requires KnownAs(tags, known) && NotsApartBut(tags, v, nots, alts)
    requires forall a :: a in alts ==> Typed(|a.args| + |tags|, a.body)
    ensures q in BuildArgsAlts(x, v, known, nots, ps, alts, h) <==> SomeBranch(tags, x, v, ps, alts, q)
    decreases h, 0, |alts|
  {
    if alts != [] {
      var a, rest := alts[0], alts[1..];
      assert a in alts && alts == [a] + rest;
      var k := |a.args|;
      EnterKnown(tags, v, known, k, a.tag);
      EnterNots(tags, v, nots, alts, k, a.tag);
      AddedApart(tags, v, nots, alts);
      hide KnownAs, NotsApart, NotsApartBut, BuildArgs, Reported, Typed, Distinct, Height;
      BuildIsPaths(Nones(k) + tags[v := Some(a.tag)], WeakenNs(k, [(v, a.tag)] + known), WeakenNs(k, nots), Refine(x, a, ps), a.body, q);
      AltsArePaths(tags, x, v, known, AddNot(v, a.tag, nots), ps, rest, h, q);
    }
  }

  lemma NothingExcluded(tags: Tags, v: nat, cons: seq<DataCon>, altsIn: seq<Alt>, known: Known, nots: Nots)
    requires v < |tags| && NotsApart(tags, nots)
    ensures NotsApartBut(tags, v, nots, Branches(v, cons, altsIn, known, nots))
  {
    forall a | a in Branches(v, cons, altsIn, known, nots) ensures FindTag(v, nots).Some? ==> TagIsNot(FindTag(v, nots).value, a) {
      BranchFrom(v, cons, altsIn, known, nots, a);
    }
  }

  lemma AddedApart(tags: Tags, v: nat, nots: Nots, alts: seq<Alt>)
    requires v < |tags| && alts != [] && AllCon(alts) && Distinct(alts) && NotsApartBut(tags, v, nots, alts)
    ensures NotsApartBut(tags, v, AddNot(v, alts[0].tag, nots), alts[1..]) && Distinct(alts[1..]) && AllCon(alts[1..])
  {
    var nots' := AddNot(v, alts[0].tag, nots);
    forall j: nat | j < |tags| ensures j != v ==> FindTag(j, nots') == FindTag(j, nots) { FindTagAdded(v, alts[0].tag, nots, j); }
    FindTagAdded(v, alts[0].tag, nots, v);
    DistinctTail(alts);
    forall a | a in alts[1..] ensures a in alts && a.tag != alts[0].tag {
      var i :| 0 <= i < |alts[1..]| && alts[1..][i] == a;
      assert alts[i + 1] == a;
    }
  }

  lemma {:induction false} WeakenTyped(outer: nat, k: nat, n: nat, t: Tree)
    requires outer <= n && Typed(n, t)
    ensures Typed(k + n, InsertTree(outer, k, t))
    decreases t
  {
    if t.Case? {
      var t' := InsertTree(outer, k, t);
      forall i | 0 <= i < |t.alts| ensures AltTyped(k + n, t.cons, t'.alts[i]) {
        assert (t.alts decreases to t.alts[i]);
        if t.alts[i].ConCase? {
          WeakenTyped(|t.alts[i].args| + outer, k, |t.alts[i].args| + n, t.alts[i].body);
        } else {
          WeakenTyped(outer, k, n, t.alts[i].body);
        }
      }
    }
  }

  lemma BranchesTyped(n: nat, t: Tree, known: Known, nots: Nots)
    requires t.Case? && Typed(n, t)
    ensures OfType(t.cons, t.alts)
    ensures forall a :: a in Branches(t.idx, t.cons, t.alts, known, nots) && a.ConCase? ==> Typed(|a.args| + n, a.body)
  {
    forall a | a in t.alts ensures AltTyped(n, t.cons, a) { }
    forall a | a in Branches(t.idx, t.cons, t.alts, known, nots) && a.ConCase? ensures Typed(|a.args| + n, a.body) {
      BranchOrigin(t.idx, t.cons, t.alts, known, nots, a);
      hide Branches, Typed;
      if !(a in t.alts) {
        var sc, c :| c in t.cons && (sc == Unmatched || DefaultCase(sc) in t.alts) && a == MkAlt(sc, c);
        if sc != Unmatched { assert AltTyped(n, t.cons, DefaultCase(sc)); } else { UnmatchedTyped(n); }
        WeakenTyped(0, c.arity, n, sc);
      } else {
        assert AltTyped(n, t.cons, a);
      }
    }
  }

  lemma UnmatchedTyped(n: nat)
    ensures Typed(n, Unmatched)
  {
  }

  lemma BranchesReport(tags: Tags, known: Known, nots: Nots, ps: seq<Pat>, t: Tree, q: seq<Pat>)
    requires t.Case? && t.idx < |tags| && DistinctTags(t.cons) && OfType(t.cons, t.alts)
    requires KnownAs(tags, known) && NotsApart(tags, nots) && AllCon(Branches(t.idx, t.cons, t.alts, known, nots))
    ensures SomeBranch(tags, t.x, t.idx, ps, Branches(t.idx, t.cons, t.alts, known, nots), q) <==> Reported(tags, ps, t, q)
  {
    var bs, v := Branches(t.idx, t.cons, t.alts, known, nots), t.idx;
    hide Branches, KnownAs, NotsApart;
    assert FindTag(v, known) == tags[v] && NotExcluded(v, known, nots) by { AtVariable(tags, known, nots, v); }
    if SomeBranch(tags, t.x, v, ps, bs, q) {
      var a :| a in bs && Reported(Nones(|a.args|) + tags[v := Some(a.tag)], Refine(t.x, a, ps), a.body, q);
      BranchIff(v, t.cons, t.alts, known, nots, a);
      var i :| 0 <= i < |t.cons| && Allows(tags[v], t.cons[i].tag) && a == Pick(t.cons[i], t.alts);
      PickReported(tags[v := Some(a.tag)], t.x, ps, t.cons[i], t.alts, q);
    }
    if Reported(tags, ps, t, q) {
      var i :| 0 <= i < |t.cons| && Allows(tags[v], t.cons[i].tag) &&
               ReportedBy(tags[v := Some(t.cons[i].tag)], t.x, ps, t.cons[i], t.alts, q);
      var a := Pick(t.cons[i], t.alts);
      PickReported(tags[v := Some(a.tag)], t.x, ps, t.cons[i], t.alts, q);
      BranchIff(v, t.cons, t.alts, known, nots, a);
    }
  }

  lemma AtVariable(tags: Tags, known: Known, nots: Nots, v: nat)
    requires v < |tags| && KnownAs(tags, known) && NotsApart(tags, nots)
    ensures FindTag(v, known) == tags[v] && NotExcluded(v, known, nots)
  {
  }

  /** The lists reported for a tree are those of its paths to unmatched leaves. */
  lemma MissingIsPaths(vars: seq<Name>, t: Tree, q: seq<Pat>)
    requires Typed(|vars|, t)
    ensures q in GetMissing(vars, t) <==> Reported(Nones(|vars|), PVars(vars), t, q)
  {
    BuildIsPaths(Nones(|vars|), [], [], PVars(vars), t, q);
  }
}

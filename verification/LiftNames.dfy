/** The names of lifted functions: which ones lifting makes, when two of them are
    equal, and exactly when a whole program lifts without a clash. */
module LiftNames {
  import opened Base
  import opened CExpSyntax
  import opened LiftedSyntax
  import opened LambdaLift
  import opened LiftProgram

  // ----- Equal names -----

  /** Names made from different definitions are equal exactly when the numbers are and
      the definitions would clash on number zero. */
  lemma {:induction false} MkNameEqualIff(b: Name, c: Name, i: int, j: int)
    ensures MkName(b, i) == MkName(c, j) <==> i == j && MkName(b, 0) == MkName(c, 0)
    decreases b, c
  {
    if b.DN? { MkNameEqualIff(b.shown, c, i, j); }
    else if c.DN? { MkNameEqualIff(b, c.shown, i, j); }
    else if b.NS? && c.NS? { MkNameEqualIff(b.inner, c.inner, i, j); }
  }

  /** A name as users write it: a user name inside any namespaces. */
  predicate UserWritten(n: Name) { n.UN? || (n.NS? && UserWritten(n.inner)) }

  function Namespaces(n: Name): seq<string> { if n.NS? then [n.ns] + Namespaces(n.inner) else [] }

  function Root(n: Name): UserName
    requires UserWritten(n)
  {
    if n.NS? then Root(n.inner) else n.user
  }

  /** A user-written name is its namespaces and its root. */
  lemma {:induction false} UserWrittenParts(b: Name, c: Name)
    requires UserWritten(b) && UserWritten(c)
    ensures b == c <==> Namespaces(b) == Namespaces(c) && Root(b) == Root(c)
    decreases b
  {
    if b.NS? && c.NS? {
      assert Namespaces(b)[1..] == Namespaces(b.inner) && Namespaces(c)[1..] == Namespaces(c.inner);
      UserWrittenParts(b.inner, c.inner);
    }
  }

  /** For user-written definitions: same namespaces, roots displayed alike, and the
      same number. */
  lemma {:induction false} GeneratedEqualIff(b: Name, c: Name, i: int, j: int)
    requires UserWritten(b) && UserWritten(c)
    ensures MkName(b, i) == MkName(c, j) <==>
            Namespaces(b) == Namespaces(c) && DisplayUserName(Root(b)) == DisplayUserName(Root(c)) && i == j
    decreases b
  {
    if b.NS? && c.NS? {
      assert Namespaces(b)[1..] == Namespaces(b.inner) && Namespaces(c)[1..] == Namespaces(c.inner);
      GeneratedEqualIff(b.inner, c.inner, i, j);
    }
  }

  /** No generated name is user-written. */
  lemma {:induction false} GeneratedIsNew(b: Name, i: int, c: Name)
    requires UserWritten(b) && UserWritten(c)
    ensures MkName(b, i) != c
    decreases b
  {
    if b.NS? && c.NS? { GeneratedIsNew(b.inner, i, c.inner); }
  }

  /** For ordinary names in one namespace each. */
  lemma OrdinaryNames(n1: string, s1: string, n2: string, s2: string, i: int, j: int, c: Name)
    ensures MkName(NS(n1, UN(Basic(s1))), i) == MkName(NS(n2, UN(Basic(s2))), j) <==> n1 == n2 && s1 == s2 && i == j
    ensures UserWritten(c) ==> MkName(NS(n1, UN(Basic(s1))), i) != c
  {
    GeneratedEqualIff(NS(n1, UN(Basic(s1))), NS(n2, UN(Basic(s2))), i, j);
    if UserWritten(c) { GeneratedIsNew(NS(n1, UN(Basic(s1))), i, c); }
  }

  predicate Spells(u: UserName, s: string) { u == Basic(s) || u == Field(s) || (u.Underscore? && s == "_") }

  /** Roots are displayed alike exactly when some string spells them both. */
  lemma DisplayedAlikeIff(u: UserName, w: UserName)
    ensures DisplayUserName(u) == DisplayUserName(w) <==> exists s :: Spells(u, s) && Spells(w, s)
  {
    assert Spells(u, DisplayUserName(u)) && Spells(w, DisplayUserName(w));
  }

  /** A name without the ways it is to be displayed. */
  function Undisplayed(n: Name): Name {
    match n
    case NS(ns, m) => NS(ns, Undisplayed(m))
    case DN(_, m) => Undisplayed(m)
    case _ => n
  }

  /** How a definition is displayed does not matter to the names it generates. */
  lemma {:induction false} DisplayIgnored(b: Name, i: int)
    ensures MkName(b, i) == MkName(Undisplayed(b), i)
    decreases b
  {
    if b.NS? { DisplayIgnored(b.inner, i); }
    if b.DN? { DisplayIgnored(b.shown, i); }
  }

  // ----- Names that show numbers -----

  predicate Digits(s: string) { s != [] && forall k :: 0 <= k < |s| ==> '0' <= s[k] <= '9' }

  lemma {:induction false} ShowIntDigits(i: int)
    requires i >= 0
    ensures Digits(ShowInt(i)) && (i >= 10 ==> |ShowInt(i)| > 1)
    decreases i
  {
    if i >= 10 { ShowIntDigits(i / 10); }
  }

  lemma ShowIntStep(i: int)
    requires i >= 10
    ensures var s := ShowInt(i);
            |s| > 1 && s[..|s| - 1] == ShowInt(i / 10) && s[|s| - 1] == "0123456789"[i % 10]
  {
    ShowIntDigits(i / 10);
  }

  lemma DigitIff(i: int, j: int)
    requires 0 <= i < 10 && 0 <= j < 10
    ensures "0123456789"[i] == "0123456789"[j] <==> i == j
  {
  }

  lemma {:induction false} ShowNatIff(i: int, j: int)
    requires i >= 0 && j >= 0
    ensures ShowInt(i) == ShowInt(j) <==> i == j
    decreases i
  {
    if i >= 10 && j >= 10 {
      hide ShowInt;
      ShowIntStep(i);
      ShowIntStep(j);
      ShowNatIff(i / 10, j / 10);
      DigitIff(i % 10, j % 10);
    } else if i < 10 && j < 10 {
      DigitIff(i, j);
    } else {
      ShowIntDigits(i);
      ShowIntDigits(j);
      assert |ShowInt(i)| != |ShowInt(j)|;
    }
  }

  /** Different numbers are shown differently. */
  lemma ShowIntIff(i: int, j: int)
    ensures ShowInt(i) == ShowInt(j) <==> i == j
  {
    if i >= 0 { ShowIntDigits(i); } else { ShowIntDigits(-i); }
    if j >= 0 { ShowIntDigits(j); } else { ShowIntDigits(-j); }
    if i >= 0 && j >= 0 {
      ShowNatIff(i, j);
    } else if i < 0 && j < 0 {
      ShowNatIff(-i, -j);
      assert ShowInt(i)[1..] == ShowInt(-i) && ShowInt(j)[1..] == ShowInt(-j);
    } else {
      assert ShowInt(i)[0] != ShowInt(j)[0];
    }
  }

  lemma ShowIntChars(i: int, c: char)
    requires c != '-' && !('0' <= c <= '9')
    ensures c !in ShowInt(i)
  {
    if i >= 0 { ShowIntDigits(i); } else { ShowIntDigits(-i); }
  }

  /** A string splits in one way at the last of a separator. */
  lemma SplitLast(u: string, c: char, d: string, u': string, d': string)
    requires c !in d && c !in d' && u + [c] + d == u' + [c] + d'
    ensures u == u' && d == d'
  {
    NoLater(u, c, d, u', d');
    NoLater(u', c, d', u, d);
    var w := u + [c] + d;
    assert w[..|u|] == u && (u' + [c] + d')[..|u|] == u';
    assert w[|u| + 1..] == d && (u' + [c] + d')[|u| + 1..] == d';
  }

  lemma NoLater(u: string, c: char, d: string, u': string, d': string)
    requires c !in d && u + [c] + d == u' + [c] + d'
    ensures |u'| <= |u|
  {
    var w := u + [c] + d;
    assert (u' + [c] + d')[|u'|] == c;
    forall k | |u| < k < |w| ensures w[k] != c { assert w[k] == d[k - |u| - 1]; }
  }

  /** A word of a source program: no blank in it, and not starting as the names do that
      the compiler shows. */
  predicate Word(s: string) { ' ' !in s && (s != [] ==> s[0] != '{' && s[0] != '$') }

  /** What most definitions are named: words, and the blocks and machine names the
      compiler makes. */
  predicate CoreName(n: Name) {
    match n
    case UN(Basic(s)) => Word(s)
    case MN(_, _) => true
    case CaseBlock(_, _) => true
    case WithBlock(_, _) => true
    case Resolved(_) => true
    case _ => false
  }

  /** The string that a lifted function is named after. */
  function Stem(n: Name): string
    requires CoreName(n)
  {
    MkName(n, 0).root
  }

  lemma BlockStem(pre: string, o: string, i: int, o': string, i': int)
    ensures pre + o + " (" + ShowInt(i) + ")" == pre + o' + " (" + ShowInt(i') + ")" <==> o == o' && i == i'
  {
    if pre + o + " (" + ShowInt(i) + ")" == pre + o' + " (" + ShowInt(i') + ")" {
      ShowIntChars(i, '(');
      ShowIntChars(i', '(');
      var u, u', d, d' := pre + o + " ", pre + o' + " ", ShowInt(i) + ")", ShowInt(i') + ")";
      assert pre + o + " (" + ShowInt(i) + ")" == u + ['('] + d;
      assert pre + o' + " (" + ShowInt(i') + ")" == u' + ['('] + d';
      SplitLast(u, '(', d, u', d');
      assert u == pre + (o + " ") && u[|pre|..] == o + " " && u'[|pre|..] == o' + " ";
      assert (o + " ")[..|o|] == o && (o' + " ")[..|o'|] == o';
      assert d[..|d| - 1] == ShowInt(i) && d'[..|d'| - 1] == ShowInt(i');
      ShowIntIff(i, i');
    }
  }

  lemma MachineStem(r: string, i: int, r': string, i': int)
    ensures "{" + r + ":" + ShowInt(i) + "}" == "{" + r' + ":" + ShowInt(i') + "}" <==> r == r' && i == i'
  {
    if "{" + r + ":" + ShowInt(i) + "}" == "{" + r' + ":" + ShowInt(i') + "}" {
      ShowIntChars(i, ':');
      ShowIntChars(i', ':');
      var u, u', d, d' := "{" + r, "{" + r', ShowInt(i) + "}", ShowInt(i') + "}";
      assert "{" + r + ":" + ShowInt(i) + "}" == u + [':'] + d;
      assert "{" + r' + ":" + ShowInt(i') + "}" == u' + [':'] + d';
      SplitLast(u, ':', d, u', d');
      assert u[1..] == r && u'[1..] == r';
      assert d[..|d| - 1] == ShowInt(i) && d'[..|d'| - 1] == ShowInt(i');
      ShowIntIff(i, i');
    }
  }

  /** How the stem of each kind of name begins. */
  lemma StemStart(n: Name)
    requires CoreName(n)
    ensures n.UN? ==> Stem(n) == n.user.s
    ensures n.MN? ==> Stem(n) == "{" + n.root + ":" + ShowInt(n.index) + "}" && Stem(n)[0] == '{'
    ensures n.CaseBlock? ==> Stem(n) == "case block in " + n.caseOf + " (" + ShowInt(n.caseId) + ")" && |Stem(n)| > 4 && Stem(n)[0] == 'c' && Stem(n)[4] == ' '
    ensures n.WithBlock? ==> Stem(n) == "with block in " + n.withOf + " (" + ShowInt(n.withId) + ")" && |Stem(n)| > 4 && Stem(n)[0] == 'w' && Stem(n)[4] == ' '
    ensures n.Resolved? ==> Stem(n) == "$resolved" + ShowInt(n.id) && Stem(n)[0] == '$'
  {
  }

  lemma StemIff(b: Name, c: Name)
    requires CoreName(b) && CoreName(c)
    ensures Stem(b) == Stem(c) <==> b == c
  {
    hide ShowInt, Stem;
    StemStart(b);
    StemStart(c);
    match b
    case MN(r, i) => if c.MN? { MachineStem(r, i, c.root, c.index); }
    case CaseBlock(o, i) => if c.CaseBlock? { BlockStem("case block in ", o, i, c.caseOf, c.caseId); }
    case WithBlock(o, i) => if c.WithBlock? { BlockStem("with block in ", o, i, c.withOf, c.withId); }
    case Resolved(i) =>
      if c.Resolved? {
        assert ("$resolved" + ShowInt(i))[9..] == ShowInt(i) && ("$resolved" + ShowInt(c.id))[9..] == ShowInt(c.id);
        ShowIntIff(i, c.id);
      }
    case UN(_) =>
  }

  /** Such a name inside any namespaces. */
  predicate Ordinary(n: Name) { CoreName(n) || (n.NS? && Ordinary(n.inner)) }

  /** For all of these, generated names are equal exactly when both the definition and
      the number are: case and with blocks of one function are kept apart too. */
  lemma {:induction false} OrdinaryEqualIff(b: Name, c: Name, i: int, j: int)
    requires Ordinary(b) && Ordinary(c)
    ensures MkName(b, i) == MkName(c, j) <==> b == c && i == j
    decreases b
  {
    if b.NS? && c.NS? {
      OrdinaryEqualIff(b.inner, c.inner, i, j);
    } else if CoreName(b) && CoreName(c) {
      assert MkName(b, i) == MN(Stem(b), i) && MkName(c, j) == MN(Stem(c), j);
      StemIff(b, c);
    }
  }

  /** A name made by the machine, inside any namespaces. */
  predicate MachineMade(n: Name) { n.MN? || (n.NS? && MachineMade(n.inner)) }

  lemma {:induction false} GeneratedMachineMade(b: Name, i: int)
    ensures MachineMade(MkName(b, i))
    decreases b
  {
    if b.NS? { GeneratedMachineMade(b.inner, i); }
    if b.DN? { GeneratedMachineMade(b.shown, i); }
  }

  // ----- The names a definition generates -----

  /** Definitions `defs`, newest first, are named after `b` by the numbers from `k` up
      to `next`. */
  predicate Numbered(b: Name, k: int, next: int, defs: Defs) {
    next == k + |defs| && forall i :: 0 <= i < |defs| ==> defs[i].0 == MkName(b, next - 1 - i)
  }

  lemma NumberedAppend(b: Name, k: int, mid: int, next: int, newer: Defs, older: Defs)
    requires Numbered(b, k, mid, older) && Numbered(b, mid, next, newer)
    ensures Numbered(b, k, next, newer + older)
  {
    hide MkName;
  }

  lemma {:induction false} MakeLamNumbered(b: Name, vars: Scope, bound: Scope, k: int, e: CExp)
    requires Scoped(e, |bound| + |vars|)
    ensures var r := MakeLam(b, vars, bound, k, e); Numbered(b, k, r.next, r.defs)
    decreases Size(e), 1
  {
    hide LiftExp, DropUnused, Dropped, UnusedIn, LScoped, MkName, AllVars;
    if e.CLam? {
      MakeLamNumbered(b, vars, [e.x] + bound, k, e.body);
    } else {
      LiftNumbered(b, bound + vars, k, e);
    }
  }

  /** Lifting takes its names in order, without gap. */
  lemma {:induction false} LiftNumbered(b: Name, vars: Scope, k: int, e: CExp)
    requires Scoped(e, |vars|)
    ensures var r := LiftExp(b, vars, k, e); Numbered(b, k, r.next, r.defs)
    decreases Size(e), 0
  {
    hide MkName, UnusedIn, DropUnused, Dropped, AllVars, LScoped;
    match e
    case CLocal(_) =>
    case CRef(_) =>
    case CLam(x, sc) => MakeLamNumbered(b, vars, [x], k, sc);
    case CLet(x, _, v, sc) => LetNumbered(b, vars, k, x, v, sc);
    case CApp(f, args) => AppNumbered(b, vars, k, f, args);
    case CCon(_, _, args) => ListNumbered(b, vars, k, args);
    case COp(_, _, args) => ListNumbered(b, vars, k, args);
    case CExtPrim(_, args) => ListNumbered(b, vars, k, args);
    case CForce(_, t) => AppNumbered(b, vars, k, t, [CErased]);
    case CDelay(_, t) =>
      WeakenScopedSize(t, |vars|);
      MakeLamNumbered(b, vars, [MN("act", 0)], k, Weaken(1, t));
    case CConCase(_, _, _) => ConCaseNumbered(b, vars, k, e);
    case CConstCase(_, _, _) => ConstCaseNumbered(b, vars, k, e);
    case CPrimVal(_) =>
    case CErased =>
    case CCrash(_) =>
  }

  lemma {:induction false} LetNumbered(b: Name, vars: Scope, k: int, x: Name, v: CExp, sc: CExp)
    requires Scoped(v, |vars|) && Scoped(sc, |vars| + 1)
    ensures var r := LiftLet(b, vars, k, x, v, sc); Numbered(b, k, r.next, r.defs)
    decreases Size(v) + Size(sc), 1
  {
    hide LiftExp, Numbered, LScoped;
    LiftNumbered(b, vars, k, v);
    var v' := LiftExp(b, vars, k, v);
    LiftNumbered(b, [x] + vars, v'.next, sc);
    var sc' := LiftExp(b, [x] + vars, v'.next, sc);
    NumberedAppend(b, k, v'.next, sc'.next, sc'.defs, v'.defs);
  }

  lemma {:induction false} AppNumbered(b: Name, vars: Scope, k: int, f: CExp, args: seq<CExp>)
    requires Scoped(f, |vars|) && forall i :: 0 <= i < |args| ==> Scoped(args[i], |vars|)
    ensures var r := LiftApp(b, vars, k, f, args); Numbered(b, k, r.next, r.defs)
    decreases Size(f) + SizeList(args), 1
  {
    hide LiftExp, LiftList, Numbered, LScoped;
    if f.CRef? {
      ListNumbered(b, vars, k, args);
    } else {
      LiftNumbered(b, vars, k, f);
      var f' := LiftExp(b, vars, k, f);
      ListNumbered(b, vars, f'.next, args);
      var as' := LiftList(b, vars, f'.next, args);
      NumberedAppend(b, k, f'.next, as'.next, as'.defs, f'.defs);
    }
  }

  lemma {:induction false} ConCaseNumbered(b: Name, vars: Scope, k: int, e: CExp)
    requires Scoped(e, |vars|) && e.CConCase?
    ensures var r := LiftExp(b, vars, k, e); Numbered(b, k, r.next, r.defs)
    decreases Size(e), -1
  {
    hide Numbered, LScoped, LiftConAlts, LiftOpt;
    LiftNumbered(b, vars, k, e.scr);
    var s' := LiftExp(b, vars, k, e.scr);
    ConAltsNumbered(b, vars, s'.next, e.conAlts);
    var alts' := LiftConAlts(b, vars, s'.next, e.conAlts);
    OptNumbered(b, vars, alts'.next, e.def);
    var d' := LiftOpt(b, vars, alts'.next, e.def);
    NumberedAppend(b, s'.next, alts'.next, d'.next, d'.defs, alts'.defs);
    NumberedAppend(b, k, s'.next, d'.next, d'.defs + alts'.defs, s'.defs);
  }

  lemma {:induction false} ConstCaseNumbered(b: Name, vars: Scope, k: int, e: CExp)
    requires Scoped(e, |vars|) && e.CConstCase?
    ensures var r := LiftExp(b, vars, k, e); Numbered(b, k, r.next, r.defs)
    decreases Size(e), -1
  {
    hide Numbered, LScoped, LiftConstAlts, LiftOpt;
    LiftNumbered(b, vars, k, e.scr);
    var s' := LiftExp(b, vars, k, e.scr);
    ConstAltsNumbered(b, vars, s'.next, e.constAlts);
    var alts' := LiftConstAlts(b, vars, s'.next, e.constAlts);
    OptNumbered(b, vars, alts'.next, e.def);
    var d' := LiftOpt(b, vars, alts'.next, e.def);
    NumberedAppend(b, s'.next, alts'.next, d'.next, d'.defs, alts'.defs);
    NumberedAppend(b, k, s'.next, d'.next, d'.defs + alts'.defs, s'.defs);
  }

  lemma {:induction false} ListNumbered(b: Name, vars: Scope, k: int, es: seq<CExp>)
    requires forall i :: 0 <= i < |es| ==> Scoped(es[i], |vars|)
    ensures var r := LiftList(b, vars, k, es); Numbered(b, k, r.next, r.defs)
    decreases SizeList(es), 0
  {
    hide LiftExp, LScoped, MkName;
    if es != [] {
      LiftNumbered(b, vars, k, es[0]);
      var h := LiftExp(b, vars, k, es[0]);
      ListNumbered(b, vars, h.next, es[1..]);
      var t := LiftList(b, vars, h.next, es[1..]);
      NumberedAppend(b, k, h.next, t.next, t.defs, h.defs);
    }
  }

  lemma {:induction false} ConAltsNumbered(b: Name, vars: Scope, k: int, alts: seq<CConAlt>)
    requires forall i :: 0 <= i < |alts| ==> Scoped(alts[i].body, |alts[i].args| + |vars|)
    ensures var r := LiftConAlts(b, vars, k, alts); Numbered(b, k, r.next, r.defs)
    decreases SizeConAlts(alts), 0
  {
    hide LiftExp, LScoped, MkName;
    if alts != [] {
      var a := alts[0];
      LiftNumbered(b, a.args + vars, k, a.body);
      var h := LiftExp(b, a.args + vars, k, a.body);
      ConAltsNumbered(b, vars, h.next, alts[1..]);
      var t := LiftConAlts(b, vars, h.next, alts[1..]);
      NumberedAppend(b, k, h.next, t.next, t.defs, h.defs);
    }
  }

  lemma {:induction false} ConstAltsNumbered(b: Name, vars: Scope, k: int, alts: seq<CConstAlt>)
    requires forall i :: 0 <= i < |alts| ==> Scoped(alts[i].body, |vars|)
    ensures var r := LiftConstAlts(b, vars, k, alts); Numbered(b, k, r.next, r.defs)
    decreases SizeConstAlts(alts), 0
  {
    hide LiftExp, LScoped, MkName;
    if alts != [] {
      LiftNumbered(b, vars, k, alts[0].body);
      var h := LiftExp(b, vars, k, alts[0].body);
      ConstAltsNumbered(b, vars, h.next, alts[1..]);
      var t := LiftConstAlts(b, vars, h.next, alts[1..]);
      NumberedAppend(b, k, h.next, t.next, t.defs, h.defs);
    }
  }

  lemma {:induction false} OptNumbered(b: Name, vars: Scope, k: int, d: Option<CExp>)
    requires d.Some? ==> Scoped(d.value, |vars|)
    ensures var r := LiftOpt(b, vars, k, d); Numbered(b, k, r.next, r.defs)
    decreases if d.Some? then Size(d.value) else 0, 1
  {
    hide LScoped, MkName;
    if d.Some? { LiftNumbered(b, vars, k, d.value); }
  }

  /** How many functions a definition's lambdas and delays become. */
  function Made(n: Name, d: CDef): (c: nat)
    requires ScopedDef(d)
  {
    |LambdaLiftDef(n, d)| - 1
  }

  /** A definition keeps its name, and what is lifted out of it is numbered from zero. */
  lemma LiftDefNames(n: Name, d: CDef)
    requires ScopedDef(d)
    ensures LambdaLiftDef(n, d)[0].0 == n && Numbered(n, 0, Made(n, d), LambdaLiftDef(n, d)[1..])
  {
    hide MkName;
    match d
    case MkFun(args, body) => LiftNumbered(n, args, 0, body);
    case MkError(expl) => LiftNumbered(n, [], 0, expl);
    case _ =>
  }

  // ----- Whole programs -----

  predicate ScopedProg(ds: seq<(Name, CDef)>) { forall i :: 0 <= i < |ds| ==> ScopedDef(ds[i].1) }

  /** The names of a definition and of what is lifted out of it. */
  predicate NameOf(ds: seq<(Name, CDef)>, i: nat, m: Name)
    requires ScopedProg(ds) && i < |ds|
  {
    m == ds[i].0 || exists k :: 0 <= k < Made(ds[i].0, ds[i].1) && m == MkName(ds[i].0, k)
  }

  lemma NamesOfDef(ds: seq<(Name, CDef)>, i: nat, m: Name)
    requires ScopedProg(ds) && i < |ds|
    ensures NameOf(ds, i, m) <==> exists l :: 0 <= l < |LambdaLiftDef(ds[i].0, ds[i].1)| && LambdaLiftDef(ds[i].0, ds[i].1)[l].0 == m
  {
    hide LambdaLiftDef, MkName;
    var (n, d) := ds[i];
    LiftDefNames(n, d);
    var ls := LambdaLiftDef(n, d);
    if NameOf(ds, i, m) && m != n {
      var k :| 0 <= k < Made(n, d) && m == MkName(n, k);
      assert ls[1..][Made(n, d) - 1 - k] == ls[Made(n, d) - k];
    }
    if l :| 0 <= l < |ls| && ls[l].0 == m {
      if l > 0 { assert ls[1..][l - 1] == ls[l]; assert m == MkName(n, Made(n, d) - l); }
    }
  }

  ghost predicate Disjoint(a: Defs, b: Defs) {
    forall i, j :: 0 <= i < |a| && 0 <= j < |b| ==> a[i].0 != b[j].0
  }

  lemma DistinctAppend(a: Defs, b: Defs)
    ensures DistinctNames(a + b) <==> DistinctNames(a) && DistinctNames(b) && Disjoint(a, b)
  {
    var c := a + b;
    if DistinctNames(c) {
      forall i, j | 0 <= i < j < |b| ensures b[i].0 != b[j].0 { assert c[|a| + i].0 != c[|a| + j].0; }
      forall i, j | 0 <= i < j < |a| ensures a[i].0 != a[j].0 { assert c[i].0 != c[j].0; }
      forall i, j | 0 <= i < |a| && 0 <= j < |b| ensures a[i].0 != b[j].0 { assert c[i].0 != c[|a| + j].0; }
    }
  }

  ghost predicate AllApart(ls: seq<Defs>) {
    (forall i :: 0 <= i < |ls| ==> DistinctNames(ls[i])) && forall i, j :: 0 <= i < j < |ls| ==> Disjoint(ls[i], ls[j])
  }

  function Concat(ls: seq<Defs>): Defs { if ls == [] then [] else ls[0] + Concat(ls[1..]) }

  lemma {:induction false} DisjointConcat(a: Defs, ls: seq<Defs>)
    ensures Disjoint(a, Concat(ls)) <==> forall j :: 0 <= j < |ls| ==> Disjoint(a, ls[j])
    decreases |ls|
  {
    if ls != [] {
      var rest := Concat(ls[1..]);
      DisjointConcat(a, ls[1..]);
      var c := ls[0] + rest;
      if Disjoint(a, c) {
        forall i, j | 0 <= i < |a| && 0 <= j < |rest| ensures a[i].0 != rest[j].0 { assert a[i].0 != c[|ls[0]| + j].0; }
        forall i, j | 0 <= i < |a| && 0 <= j < |ls[0]| ensures a[i].0 != ls[0][j].0 { assert a[i].0 != c[j].0; }
        forall j | 0 <= j < |ls| ensures Disjoint(a, ls[j]) { if j > 0 { assert ls[j] == ls[1..][j - 1]; } }
      }
      if forall j :: 0 <= j < |ls| ==> Disjoint(a, ls[j]) {
        forall j | 0 <= j < |ls[1..]| ensures Disjoint(a, ls[1..][j]) { assert ls[1..][j] == ls[j + 1]; }
      }
    }
  }

  lemma {:induction false} DistinctConcat(ls: seq<Defs>)
    ensures DistinctNames(Concat(ls)) <==> AllApart(ls)
    decreases |ls|
  {
    if ls != [] {
      hide DistinctNames, Disjoint;
      var rest := ls[1..];
      DistinctConcat(rest);
      DistinctAppend(ls[0], Concat(rest));
      DisjointConcat(ls[0], rest);
      assert forall i :: 0 <= i < |rest| ==> rest[i] == ls[i + 1];
      assert forall i :: 1 <= i < |ls| ==> ls[i] == rest[i - 1];
    }
  }

  function LiftEach(ds: seq<(Name, CDef)>): (ls: seq<Defs>)
    requires ScopedProg(ds)
    ensures |ls| == |ds| && forall i :: 0 <= i < |ds| ==> ls[i] == LambdaLiftDef(ds[i].0, ds[i].1)
    ensures Concat(ls) == LiftAll(ds)
  {
    if ds == [] then [] else
      var ls := [LambdaLiftDef(ds[0].0, ds[0].1)] + LiftEach(ds[1..]);
      assert ls[1..] == LiftEach(ds[1..]);
      ls
  }

  /** Does number `k` of definition `i` belong to something lifted out of it? */
  predicate Numbers(ds: seq<(Name, CDef)>, i: nat, k: int)
    requires ScopedProg(ds) && i < |ds|
  {
    0 <= k < Made(ds[i].0, ds[i].1)
  }

  /** Definitions have different names, nothing lifted is named as a definition is, and
      no two definitions that something is lifted out of generate the same names. */
  ghost predicate NoClash(ds: seq<(Name, CDef)>)
    requires ScopedProg(ds)
  {
    && DistinctNames(ds)
    && (forall i, j, k :: 0 <= i < |ds| && 0 <= j < |ds| && Numbers(ds, i, k) ==> MkName(ds[i].0, k) != ds[j].0)
    && (forall i, j :: 0 <= i < j < |ds| && Numbers(ds, i, 0) && Numbers(ds, j, 0) ==> MkName(ds[i].0, 0) != MkName(ds[j].0, 0))
  }

  /** Two definitions share no name, lifted ones included. */
  ghost predicate Apart(ds: seq<(Name, CDef)>, i: nat, j: nat)
    requires ScopedProg(ds) && i < |ds| && j < |ds|
  {
    && ds[i].0 != ds[j].0
    && (forall k :: Numbers(ds, i, k) ==> MkName(ds[i].0, k) != ds[j].0)
    && (forall k :: Numbers(ds, j, k) ==> MkName(ds[j].0, k) != ds[i].0)
    && (Numbers(ds, i, 0) && Numbers(ds, j, 0) ==> MkName(ds[i].0, 0) != MkName(ds[j].0, 0))
  }

  lemma ApartIff(ds: seq<(Name, CDef)>, i: nat, j: nat)
    requires ScopedProg(ds) && i < |ds| && j < |ds|
    ensures Disjoint(LambdaLiftDef(ds[i].0, ds[i].1), LambdaLiftDef(ds[j].0, ds[j].1)) <==> Apart(ds, i, j)
  {
    hide LambdaLiftDef, MkName;
    var a, b := LambdaLiftDef(ds[i].0, ds[i].1), LambdaLiftDef(ds[j].0, ds[j].1);
    forall m ensures NameOf(ds, i, m) <==> exists l :: 0 <= l < |a| && a[l].0 == m { NamesOfDef(ds, i, m); }
    forall m ensures NameOf(ds, j, m) <==> exists l :: 0 <= l < |b| && b[l].0 == m { NamesOfDef(ds, j, m); }
    if Disjoint(a, b) {
      assert forall m :: NameOf(ds, i, m) ==> !NameOf(ds, j, m);
      assert NameOf(ds, i, ds[i].0) && NameOf(ds, j, ds[j].0);
      forall k | Numbers(ds, i, k) ensures MkName(ds[i].0, k) != ds[j].0 { assert NameOf(ds, i, MkName(ds[i].0, k)); }
      forall k | Numbers(ds, j, k) ensures MkName(ds[j].0, k) != ds[i].0 { assert NameOf(ds, j, MkName(ds[j].0, k)); }
      if Numbers(ds, i, 0) && Numbers(ds, j, 0) { assert NameOf(ds, i, MkName(ds[i].0, 0)) && NameOf(ds, j, MkName(ds[j].0, 0)); }
    }
    if Apart(ds, i, j) {
      forall l, l' | 0 <= l < |a| && 0 <= l' < |b| ensures a[l].0 != b[l'].0 {
        var m := a[l].0;
        assert NameOf(ds, i, m);
        if b[l'].0 == m {
          assert NameOf(ds, j, m);
          if m != ds[i].0 && m != ds[j].0 {
            var k :| Numbers(ds, i, k) && m == MkName(ds[i].0, k);
            var k' :| Numbers(ds, j, k') && m == MkName(ds[j].0, k');
            MkNameEqualIff(ds[i].0, ds[j].0, k, k');
          }
        }
      }
    }
  }

  lemma OwnNamesIff(ds: seq<(Name, CDef)>, i: nat)
    requires ScopedProg(ds) && i < |ds|
    ensures DistinctNames(LambdaLiftDef(ds[i].0, ds[i].1)) <==> forall k :: Numbers(ds, i, k) ==> MkName(ds[i].0, k) != ds[i].0
  {
    hide LambdaLiftDef, MkName;
    var (n, d) := ds[i];
    LiftDefNames(n, d);
    var ls := LambdaLiftDef(n, d);
    assert forall l :: 1 <= l < |ls| ==> ls[l] == ls[1..][l - 1];
    assert forall l :: 1 <= l < |ls| ==> ls[l].0 == MkName(n, Made(n, d) - l);
    if DistinctNames(ls) {
      forall k | Numbers(ds, i, k) ensures MkName(n, k) != n { assert ls[Made(n, d) - k].0 != ls[0].0; }
    }
    if forall k :: Numbers(ds, i, k) ==> MkName(n, k) != n {
      forall l, l' | 0 <= l < l' < |ls| ensures ls[l].0 != ls[l'].0 {
        assert Numbers(ds, i, Made(n, d) - l');
        if l > 0 { MkNameEqualIff(n, n, Made(n, d) - l, Made(n, d) - l'); }
      }
    }
  }

  /** A program lifts to definitions with different names if and only if its own names
      do not clash, whatever they are. */
  lemma LiftedDistinctIff(ds: seq<(Name, CDef)>)
    requires ScopedProg(ds)
    ensures DistinctNames(LiftAll(ds)) <==> NoClash(ds)
  {
    hide LambdaLiftDef, MkName, Disjoint, Concat, LiftAll;
    var ls := LiftEach(ds);
    DistinctConcat(ls);
    forall i | 0 <= i < |ds| ensures DistinctNames(ls[i]) <==> forall k :: Numbers(ds, i, k) ==> MkName(ds[i].0, k) != ds[i].0 {
      OwnNamesIff(ds, i);
    }
    forall i, j | 0 <= i < j < |ds| ensures Disjoint(ls[i], ls[j]) <==> Apart(ds, i, j) { ApartIff(ds, i, j); }
    if AllApart(ls) {
      hide DistinctNames, Made, Numbers;
      forall i, j | 0 <= i < j < |ds| ensures Apart(ds, i, j) { assert Disjoint(ls[i], ls[j]); }
      ApartNoClash(ds);
    }
    if NoClash(ds) {
      hide Made, Numbers;
      assert AllApart(ls);
    }
  }

  lemma ApartNoClash(ds: seq<(Name, CDef)>)
    requires ScopedProg(ds)
    requires forall i, j :: 0 <= i < j < |ds| ==> Apart(ds, i, j)
    requires forall i, k :: 0 <= i < |ds| && Numbers(ds, i, k) ==> MkName(ds[i].0, k) != ds[i].0
    ensures NoClash(ds)
  {
    hide Numbers, MkName, ScopedDef;
    forall i, j, k | 0 <= i < |ds| && 0 <= j < |ds| && Numbers(ds, i, k) ensures MkName(ds[i].0, k) != ds[j].0 {
      if i < j { assert Apart(ds, i, j); } else if j < i { assert Apart(ds, j, i); }
    }
    forall i, j | 0 <= i < j < |ds| ensures ds[i].0 != ds[j].0 { assert Apart(ds, i, j); }
    forall i, j | 0 <= i < j < |ds| && Numbers(ds, i, 0) && Numbers(ds, j, 0)
      ensures MkName(ds[i].0, 0) != MkName(ds[j].0, 0)
    {
      assert Apart(ds, i, j);
    }
  }

  // ----- Programs that users write -----

  /** Two names whose lifted functions would be named alike. */
  predicate ShownAlike(b: Name, c: Name)
    requires UserWritten(b) && UserWritten(c)
  {
    Namespaces(b) == Namespaces(c) && DisplayUserName(Root(b)) == DisplayUserName(Root(c))
  }

  /** With user-written names the clash left is between names that are displayed alike. */
  lemma UserProgramDistinctIff(ds: seq<(Name, CDef)>)
    requires ScopedProg(ds) && forall i :: 0 <= i < |ds| ==> UserWritten(ds[i].0)
    ensures DistinctNames(LiftAll(ds)) <==>
            DistinctNames(ds) && forall i, j :: 0 <= i < j < |ds| && ShownAlike(ds[i].0, ds[j].0) ==>
              Made(ds[i].0, ds[i].1) == 0 || Made(ds[j].0, ds[j].1) == 0
  {
    hide LambdaLiftDef, LiftAll, MkName;
    LiftedDistinctIff(ds);
    forall i, j, k | 0 <= i < |ds| && 0 <= j < |ds| && Numbers(ds, i, k) ensures MkName(ds[i].0, k) != ds[j].0 {
      GeneratedIsNew(ds[i].0, k, ds[j].0);
    }
    forall i, j | 0 <= i < j < |ds| ensures MkName(ds[i].0, 0) == MkName(ds[j].0, 0) <==> ShownAlike(ds[i].0, ds[j].0) {
      GeneratedEqualIff(ds[i].0, ds[j].0, 0, 0);
    }
  }

  /** With words, case blocks and with blocks as names nothing clashes. */
  lemma OrdinaryProgramDistinct(ds: seq<(Name, CDef)>)
    requires ScopedProg(ds) && forall i :: 0 <= i < |ds| ==> Ordinary(ds[i].0) && !MachineMade(ds[i].0)
    ensures DistinctNames(LiftAll(ds)) <==> DistinctNames(ds)
  {
    hide LambdaLiftDef, LiftAll, MkName, Ordinary, MachineMade;
    LiftedDistinctIff(ds);
    forall i, j, k | 0 <= i < |ds| && 0 <= j < |ds| && Numbers(ds, i, k) ensures MkName(ds[i].0, k) != ds[j].0 {
      GeneratedMachineMade(ds[i].0, k);
    }
    forall i, j | 0 <= i < j < |ds| ensures MkName(ds[i].0, 0) == MkName(ds[j].0, 0) <==> ds[i].0 == ds[j].0 {
      OrdinaryEqualIff(ds[i].0, ds[j].0, 0, 0);
    }
  }

  /** Nor with any user-written names, as long as there are no field accessors and
      underscores. */
  lemma UserProgramDistinct(ds: seq<(Name, CDef)>)
    requires ScopedProg(ds) && forall i :: 0 <= i < |ds| ==> UserWritten(ds[i].0) && Root(ds[i].0).Basic?
    ensures DistinctNames(LiftAll(ds)) <==> DistinctNames(ds)
  {
    hide LambdaLiftDef, LiftAll;
    UserProgramDistinctIff(ds);
    forall i, j | 0 <= i < j < |ds| ensures ShownAlike(ds[i].0, ds[j].0) <==> ds[i].0 == ds[j].0 {
      UserWrittenParts(ds[i].0, ds[j].0);
    }
  }

  /** A function and a field accessor of one name do clash when both hold a lambda. */
  lemma AccessorClashes(ns: string, f: string, x: Name, body: CExp)
    requires Scoped(body, 1)
    ensures
      var d := MkFun([], CLam(x, body));
      var ds := [(NS(ns, UN(Basic(f))), d), (NS(ns, UN(Field(f))), d)];
      ScopedProg(ds) && DistinctNames(ds) && !DistinctNames(LiftAll(ds))
  {
    hide LiftExp, LiftAll, MkName, UnusedIn, DropUnused;
    var d := MkFun([], CLam(x, body));
    var ds := [(NS(ns, UN(Basic(f))), d), (NS(ns, UN(Field(f))), d)];
    assert Scoped(CLam(x, body), 0);
    forall i | 0 <= i < 2 ensures Made(ds[i].0, ds[i].1) > 0 {
      LamMakes(ds[i].0, x, body);
    }
    UserProgramDistinctIff(ds);
    assert Root(ds[0].0) == Basic(f) && Root(ds[1].0) == Field(f);
    assert Namespaces(ds[0].0) == [ns] + Namespaces(UN(Basic(f))) && Namespaces(ds[1].0) == [ns] + Namespaces(UN(Field(f)));
    assert ShownAlike(ds[0].0, ds[1].0);
  }

  lemma LamMakes(n: Name, x: Name, body: CExp)
    requires Scoped(CLam(x, body), 0)
    ensures Made(n, MkFun([], CLam(x, body))) > 0
  {
    LamNumber(n, [], [x], 0, body);
    hide MakeLam;
    assert LambdaLiftDef(n, MkFun([], CLam(x, body))) == [(n, MkLFun([], [], MakeLam(n, [], [x], 0, body).out))] + MakeLam(n, [], [x], 0, body).defs;
  }

  lemma {:induction false} LamNumber(b: Name, vars: Scope, bound: Scope, k: int, e: CExp)
    requires Scoped(e, |bound| + |vars|)
    ensures MakeLam(b, vars, bound, k, e).defs != []
    decreases e
  {
    if e.CLam? { LamNumber(b, vars, [e.x] + bound, k, e.body); }
  }
}

/** The whole back end: from `CExp` definitions to register code. */
module Backend {
  import opened Base
  import opened CExpSyntax
  import opened CExpEval
  import opened LiftedSyntax
  import opened LiftedEval
  import opened LambdaLift
  import opened LambdaLiftCorrect
  import opened LiftProgram
  import opened LiftNames
  import opened ANFSyntax
  import opened ANFEval
  import opened ANFConvert
  import opened ANFForm
  import opened ANFCorrect
  import opened VMSyntax
  import opened VMEval
  import opened VMCode
  import opened VMCorrect
  import opened VMSafe

  function ANFProg(lp: LProg): AProg
    requires forall n :: n in lp.defs ==> LScopedDef(lp.defs[n])
  {
    AProg(map n | n in lp.defs :: ToANF(lp.defs[n]), lp.prim)
  }

  function VMProgram(ap: AProg): VMProg {
    VMProg(map n | n in ap.defs && ToVMDef(ap.defs[n]).Some? :: ToVMDef(ap.defs[n]).value, ap.prim)
  }

  /** What a compiler driver must know of its input: terms are well scoped, no name
      is forced directly, and no two definitions, lifted ones included, clash. */
  predicate Compilable(ds: seq<(Name, CDef)>) {
    && (forall i :: 0 <= i < |ds| ==> ScopedDef(ds[i].1) && ForceOkDef(ds[i].1))
    && DistinctNames(ds) && DistinctNames(LiftAll(ds))
  }

  /** When definitions are named by words, or are case and with blocks, in any namespaces,
      the lifted names never clash. */
  lemma OrdinaryProgramCompiles(ds: seq<(Name, CDef)>)
    requires forall i :: 0 <= i < |ds| ==> ScopedDef(ds[i].1) && ForceOkDef(ds[i].1)
    requires forall i :: 0 <= i < |ds| ==> Ordinary(ds[i].0) && !MachineMade(ds[i].0)
    ensures Compilable(ds) <==> DistinctNames(ds)
  {
    OrdinaryProgramDistinct(ds);
  }

  ghost const ANY_MESSAGE: iset<string> := iset s: string | true

  lemma AnyCrash(l: Lifted)
    ensures CrashesIn(l, ANY_MESSAGE)
  {
  }

  /** Converted definitions have the form the register allocator relies on. */
  lemma ConvertedGood(d: LiftedDef)
    requires LScopedDef(d)
    ensures GoodDef(ToANF(d), ANY_MESSAGE)
  {
    match d
    case MkLFun(_, _, body) =>
      AnyCrash(body);
      DefinitionForm(d, ANY_MESSAGE);
    case MkLError(expl) =>
      AnyCrash(expl);
      ConvGood([], 0, expl, ANY_MESSAGE);
      assert InScope([]) == {AErasedVar};
    case _ =>
  }

  lemma BackEndConnects(lp: LProg)
    requires forall n :: n in lp.defs ==> LScopedDef(lp.defs[n])
    ensures Converts(lp, ANFProg(lp))
    ensures Compiles(ANFProg(lp), VMProgram(ANFProg(lp)), ANY_MESSAGE)
  {
    hide LScopedDef, ToANF, ToVMDef, GoodDef;
    var ap := ANFProg(lp);
    forall n | n in ap.defs ensures GoodDef(ap.defs[n], ANY_MESSAGE) { ConvertedGood(lp.defs[n]); }
  }

  /** A register-code outcome realises a source outcome. */
  ghost predicate Realises(lp: LProg, o: Outcome<CVal>, r: Run<Val>) {
    match o
    case Value(cv) => r.Done? && VRel(lp, cv, r.v)
    case Crash(m) => r == Halt(m)
    case Stuck => true
    case Timeout => r == OutOfFuel
  }

  /** Compilation preserves meaning. Calling any source function, and calling its
      register code on related arguments with the same fuel, gives related values,
      the same crash, or exhausts the fuel alike; and no compiled run reads an
      unassigned register, whatever the source does. */
  lemma BackEndCorrect(ds: seq<(Name, CDef)>, cprim: (PrimKey, seq<CVal>) -> Outcome<CVal>, prim: Prims,
                       fuel: nat, n: Name, cs: seq<CVal>, vs: seq<Val>)
    requires Compilable(ds)
    requires PrimsRel(SourceProg(ds, cprim), LiftedProg(ds, prim))
    requires VRels(LiftedProg(ds, prim), cs, vs)
    ensures forall m :: m in LiftedProg(ds, prim).defs ==> LScopedDef(LiftedProg(ds, prim).defs[m])
    ensures var lp := LiftedProg(ds, prim);
            var r := VCall(VMProgram(ANFProg(lp)), fuel, n, vs);
            Realises(lp, Call(SourceProg(ds, cprim), fuel, n, cs), r) && !r.Unassigned?
  {
    hide Call, LCall, ACall, VCall, VRel, VRels, PrimsRel, Lifts, Converts, Compiles, LEval, Eval, DistinctNames, LiftAll, ScopedDef, LScopedDef, ToANF, ToVMDef, ToMap;
    var cp, lp := SourceProg(ds, cprim), LiftedProg(ds, prim);
    ProgramLifts(ds, cprim, prim);
    BackEndConnects(lp);
    var ap := ANFProg(lp);
    var vp := VMProgram(ap);
    CallSim(cp, lp, fuel, n, cs, vs);
    CallConv(lp, ap, fuel, n, vs);
    VCallSim(ap, vp, ANY_MESSAGE, fuel, n, vs);
    SafeCall(ap, vp, ANY_MESSAGE, fuel, n, vs);
  }

  /** Definitions that are not functions keep their tags and arities through lifting and
      conversion; constructors need no register code. */
  lemma OtherDefinitions(ds: seq<(Name, CDef)>, prim: Prims, i: nat)
    requires Compilable(ds) && i < |ds|
    ensures forall m :: m in LiftedProg(ds, prim).defs ==> LScopedDef(LiftedProg(ds, prim).defs[m])
    ensures
      var (n, d) := ds[i];
      var lp := LiftedProg(ds, prim);
      var ap := ANFProg(lp);
      && n in lp.defs
      && (d.MkCon? ==> lp.defs[n] == MkLCon(d.tag, d.arity) && ap.defs[n] == MkACon(d.tag, d.arity) && n !in VMProgram(ap).defs)
      && (d.MkForeign? ==> ap.defs[n] == MkAForeign(d.arity) && n in VMProgram(ap).defs
                           && VMProgram(ap).defs[n] == MkVMForeign(d.arity))
  {
    hide ScopedDef, ForceOkDef, LiftAll, LScopedDef, DistinctNames;
    var (n, d) := ds[i];
    var lp := LiftedProg(ds, prim);
    LiftAllScoped(ds);
    forall m | m in lp.defs ensures LScopedDef(lp.defs[m]) {
      var k :| 0 <= k < |LiftAll(ds)| && LiftAll(ds)[k].0 == m;
      ToMapLookup(LiftAll(ds), k);
    }
    var at := LiftAllAt(ds, i);
    LiftDefNames(n, d);
    assert LiftAll(ds)[at] == LiftAll(ds)[at..at + |LambdaLiftDef(n, d)|][0] == LambdaLiftDef(n, d)[0];
    ToMapLookup(LiftAll(ds), at);
  }

  /** A value with no functions or delayed terms inside. */
  predicate IsData(cv: CVal) {
    match cv
    case CVCon(_, args) => forall i :: 0 <= i < |args| ==> IsData(args[i])
    case CVConst(_) => true
    case CVErased => true
    case CVClo(_, _) => false
    case CVThunk(_, _) => false
  }

  function DataVal(cv: CVal): Val
    requires IsData(cv)
  {
    match cv
    case CVCon(key, args) => VCon(key, seq(|args|, i requires 0 <= i < |args| => DataVal(args[i])))
    case CVConst(c) => VConst(c)
    case CVErased => VErased
  }

  /** On data the value relation is equality, so a data result comes out unchanged. */
  lemma {:induction false} DataRelated(lp: LProg, cv: CVal, v: Val)
    requires IsData(cv)
    ensures VRel(lp, cv, v) <==> v == DataVal(cv)
    decreases cv
  {
    if cv.CVCon? && v.VCon? && |v.args| == |cv.args| {
      forall i | 0 <= i < |cv.args| { DataRelated(lp, cv.args[i], v.args[i]); }
    }
  }
}

/** Register code (Compiler/VMCode.idr) and its meaning. */
module VMSyntax {
  import opened Base

  datatype Reg = RVal | Loc(i: int) | Discard

  datatype VMInst =
    | DECLARE(r: Reg)
    | START
    | ASSIGN(r: Reg, v: Reg)
    | MKCON(r: Reg, key: ConKey, args: seq<Reg>)
    | MKCLOSURE(r: Reg, n: Name, missing: nat, args: seq<Reg>)
    | MKCONSTANT(r: Reg, c: Constant)
    | APPLY(r: Reg, f: Reg, a: Reg)
    | CALL(r: Reg, tailpos: bool, n: Name, args: seq<Reg>)
    | OP(r: Reg, op: string, args: seq<Reg>)
    | EXTPRIM(r: Reg, p: Name, args: seq<Reg>)
    | CASE(scr: Reg, alts: seq<VMAlt>, def: VMDefault)
    | CONSTCASE(scr: Reg, constAlts: seq<VMConstAlt>, def: VMDefault)
    | PROJECT(r: Reg, value: Reg, pos: int)
    | NULL(r: Reg)
    | ERROR(msg: string)

  datatype VMDefault = NoDefault | Default(code: seq<VMInst>)

  datatype VMAlt = MkVMAlt(key: ConKey, code: seq<VMInst>)

  datatype VMConstAlt = MkVMConstAlt(c: Constant, code: seq<VMInst>)

  datatype VMDef =
    | MkVMFun(args: seq<int>, code: seq<VMInst>)
    | MkVMForeign(arity: nat)
    | MkVMError(code: seq<VMInst>)
}

module VMEval {
  import opened Base
  import opened LiftedEval
  import opened ANFEval
  import opened VMSyntax

  /** How a run of register code ends. Reading a register nothing was written to
      is kept apart from every other wrong run. */
  datatype Run<+T> = Done(v: T) | Halt(msg: string) | Wrong | OutOfFuel | Unassigned(r: Reg) {
    predicate IsFailure() { !Done? }
    function PropagateFailure<U>(): Run<U>
      requires IsFailure()
    {
      match this
      case Halt(m) => Halt(m)
      case Wrong => Wrong
      case OutOfFuel => OutOfFuel
      case Unassigned(r) => Unassigned(r)
    }
    function Extract(): T
      requires !IsFailure()
    {
      v
    }
  }

  function FromOutcome(o: Outcome<Val>): Run<Val> {
    match o
    case Value(v) => Done(v)
    case Crash(m) => Halt(m)
    case Stuck => Wrong
    case Timeout => OutOfFuel
  }

  datatype VMProg = VMProg(defs: map<Name, VMDef>, prim: Prims)

  datatype Regs = Regs(loc: map<int, Val>, rval: Option<Val>)

  /** `Discard` stands for an erased argument. */
  function Read(regs: Regs, r: Reg): Run<Val> {
    match r
    case RVal => if regs.rval.Some? then Done(regs.rval.value) else Unassigned(r)
    case Loc(i) => if i in regs.loc then Done(regs.loc[i]) else Unassigned(r)
    case Discard => Done(VErased)
  }

  function ReadAll(regs: Regs, rs: seq<Reg>): (vs: Run<seq<Val>>)
    ensures vs.Done? ==> |vs.v| == |rs|
  {
    if rs == [] then Done([])
    else
      var v :- Read(regs, rs[0]);
      var rest :- ReadAll(regs, rs[1..]);
      Done([v] + rest)
  }

  function Write(regs: Regs, r: Reg, v: Val): Regs {
    match r
    case RVal => regs.(rval := Some(v))
    case Loc(i) => regs.(loc := regs.loc[i := v])
    case Discard => regs
  }

  function VMKeys(alts: seq<VMAlt>): (ks: seq<ConKey>)
    ensures |ks| == |alts|
  {
    seq(|alts|, i requires 0 <= i < |alts| => alts[i].key)
  }

  function VMConsts(alts: seq<VMConstAlt>): (cs: seq<Constant>)
    ensures |cs| == |alts|
  {
    seq(|alts|, i requires 0 <= i < |alts| => alts[i].c)
  }

  ghost function Exec(p: VMProg, fuel: nat, code: seq<VMInst>, regs: Regs): Run<Regs>
    decreases fuel, 1, code, 0
  {
    if code == [] then Done(regs)
    else
      var regs' :- Step(p, fuel, code[0], regs);
      Exec(p, fuel, code[1..], regs')
  }

  ghost function Step(p: VMProg, fuel: nat, inst: VMInst, regs: Regs): Run<Regs>
    decreases fuel, 1, inst, 0
  {
    match inst
    case DECLARE(_) => Done(regs)
    case START => Done(regs)
    case ASSIGN(r, v) =>
      var x :- Read(regs, v);
      Done(Write(regs, r, x))
    case MKCON(r, key, args) =>
      var vs :- ReadAll(regs, args);
      Done(Write(regs, r, VCon(key, vs)))
    case MKCLOSURE(r, n, m, args) =>
      var vs :- ReadAll(regs, args);
      Done(Write(regs, r, VPap(n, m, vs)))
    case MKCONSTANT(r, c) => Done(Write(regs, r, VConst(c)))
    case APPLY(r, f, a) =>
      var g :- Read(regs, f);
      var v :- Read(regs, a);
      var x :- VApply(p, fuel, g, v);
      Done(Write(regs, r, x))
    case CALL(r, _, n, args) =>
      var vs :- ReadAll(regs, args);
      var x :- VCall(p, fuel, n, vs);
      Done(Write(regs, r, x))
    case OP(r, op, args) =>
      var vs :- ReadAll(regs, args);
      var x :- FromOutcome(p.prim(OpKey(op), vs));
      Done(Write(regs, r, x))
    case EXTPRIM(r, n, args) =>
      var vs :- ReadAll(regs, args);
      var x :- FromOutcome(p.prim(ExtKey(n), vs));
      Done(Write(regs, r, x))
    case CASE(s, alts, d) =>
      var v :- Read(regs, s);
      var pick := PickKey(VMKeys(alts), v);
      if pick.Some? then
        assert (alts decreases to alts[pick.value]);
        Exec(p, fuel, alts[pick.value].code, regs)
      else if d.Default? then Exec(p, fuel, d.code, regs) else Wrong
    case CONSTCASE(s, alts, d) =>
      var v :- Read(regs, s);
      var pick := PickVal(VMConsts(alts), v);
      if pick.Some? then
        assert (alts decreases to alts[pick.value]);
        Exec(p, fuel, alts[pick.value].code, regs)
      else if d.Default? then Exec(p, fuel, d.code, regs) else Wrong
    case PROJECT(r, x, pos) =>
      var v :- Read(regs, x);
      if v.VCon? && 0 <= pos < |v.args| then Done(Write(regs, r, v.args[pos])) else Wrong
    case NULL(r) => Done(Write(regs, r, VErased))
    case ERROR(m) => Halt(m)
  }

  ghost function VApply(p: VMProg, fuel: nat, g: Val, v: Val): Run<Val>
    decreases fuel, 0, 1
  {
    if !g.VPap? || g.missing == 0 then Wrong
    else if fuel == 0 then OutOfFuel
    else if g.missing == 1 then VCall(p, fuel, g.n, g.args + [v])
    else Done(VPap(g.n, g.missing - 1, g.args + [v]))
  }

  /** Run a function's code with its arguments in their registers; the result is
      what it leaves in `RVal`. */
  ghost function VCall(p: VMProg, fuel: nat, n: Name, vs: seq<Val>): Run<Val>
    decreases fuel, 0, 0
  {
    if n !in p.defs then Wrong
    else match p.defs[n]
      case MkVMFun(args, code) =>
        if |vs| != |args| then Wrong
        else if fuel == 0 then OutOfFuel
        else
          var regs :- Exec(p, fuel - 1, code, Regs(BindAll(map[], args, vs), None));
          Read(regs, RVal)
      case MkVMForeign(arity) =>
        if |vs| == arity then FromOutcome(p.prim(ForeignKey(n), vs)) else Wrong
      case MkVMError(code) =>
        if fuel == 0 then OutOfFuel
        else
          var regs :- Exec(p, fuel - 1, code, Regs(map[], None));
          Read(regs, RVal)
  }
}

module VMCode {
  import opened Base
  import opened ANFSyntax
  import opened VMSyntax

  function ToReg(v: AVar): Reg {
    match v
    case ALocal(i) => Loc(i)
    case AErasedVar => Discard
  }

  function ToRegs(vs: seq<AVar>): (rs: seq<Reg>)
    ensures |rs| == |vs| && forall i :: 0 <= i < |vs| ==> rs[i] == ToReg(vs[i])
  {
    seq(|vs|, i requires 0 <= i < |vs| => ToReg(vs[i]))
  }

  /** Project the fields of `scr`, from field `i` on, that the code uses. */
  function ProjectArgs(scr: int, i: int, used: set<int>, args: seq<int>): seq<VMInst>
    decreases |args|
  {
    if args == [] then []
    else if args[0] in used then
      [PROJECT(Loc(args[0]), Loc(scr), i)] + ProjectArgs(scr, i + 1, used, args[1..])
    else ProjectArgs(scr, i + 1, used, args[1..])
  }

  function CollectReg(r: Reg): set<int> { if r.Loc? then {r.i} else {} }

  function CollectRegs(rs: seq<Reg>): set<int> {
    set i | 0 <= i < |rs| && rs[i].Loc? :: rs[i].i
  }

  /** The registers an instruction reads. */
  function CollectUsed(inst: VMInst): set<int>
    decreases inst, 0
  {
    match inst
    case DECLARE(r) => CollectReg(r)
    case START => {}
    case ASSIGN(_, v) => CollectReg(v)
    case MKCON(_, _, args) => CollectRegs(args)
    case MKCLOSURE(_, _, _, args) => CollectRegs(args)
    case MKCONSTANT(_, _) => {}
    case APPLY(_, f, a) => CollectReg(f) + CollectReg(a)
    case CALL(_, _, _, args) => CollectRegs(args)
    case OP(_, _, args) => CollectRegs(args)
    case EXTPRIM(_, _, args) => CollectRegs(args)
    case CASE(s, alts, d) =>
      CollectReg(s) + UsedInAlts(alts) + (if d.Default? then Used(d.code) else {})
    case CONSTCASE(s, alts, d) =>
      CollectReg(s) + UsedInConstAlts(alts) + (if d.Default? then Used(d.code) else {})
    case PROJECT(_, v, _) => CollectReg(v)
    case NULL(_) => {}
    case ERROR(_) => {}
  }

  function Used(code: seq<VMInst>): set<int>
    decreases code, 0
  {
    if code == [] then {} else CollectUsed(code[0]) + Used(code[1..])
  }

  function UsedInAlts(alts: seq<VMAlt>): set<int>
    decreases alts, 0
  {
    if alts == [] then {}
    else
      assert (alts decreases to alts[0]);
      Used(alts[0].code) + UsedInAlts(alts[1..])
  }

  function UsedInConstAlts(alts: seq<VMConstAlt>): set<int>
    decreases alts, 0
  {
    if alts == [] then {}
    else
      assert (alts decreases to alts[0]);
      Used(alts[0].code) + UsedInConstAlts(alts[1..])
  }

  function ToVM(t: bool, res: Reg, a: ANF): seq<VMInst>
    decreases a
  {
    if res.Discard? then []
    else match a
      case AV(ALocal(i)) => [ASSIGN(res, Loc(i))]
      case AAppName(n, args) => [CALL(res, t, n, ToRegs(args))]
      case AUnderApp(n, m, args) => [MKCLOSURE(res, n, m, ToRegs(args))]
      case AApp(f, x) => [APPLY(res, ToReg(f), ToReg(x))]
      case ALet(x, v, b) => ToVM(false, Loc(x), v) + ToVM(t, res, b)
      case ACon(n, tag, args) => [MKCON(res, KeyOf(n, tag), ToRegs(args))]
      case AOp(op, args) => [OP(res, op, ToRegs(args))]
      case AExtPrim(p, args) => [EXTPRIM(res, p, ToRegs(args))]
      case AConCase(ALocal(s), alts, d) =>
        if |alts| == 1 && d.None? then AltCode(s, alts[0].args, ToVM(t, res, alts[0].body))
        else
          [CASE(Loc(s),
                seq(|alts|, i requires 0 <= i < |alts| =>
                  MkVMAlt(KeyOf(alts[i].con, alts[i].tag),
                          AltCode(s, alts[i].args, ToVM(t, res, alts[i].body)))),
                if d.Some? then Default(ToVM(t, res, d.value)) else NoDefault)]
      case AConstCase(ALocal(s), alts, d) =>
        [CONSTCASE(Loc(s),
                   seq(|alts|, i requires 0 <= i < |alts| =>
                     assert (alts decreases to alts[i]);
                     MkVMConstAlt(alts[i].c, ToVM(t, res, alts[i].body))),
                   if d.Some? then Default(ToVM(t, res, d.value)) else NoDefault)]
      case APrimVal(c) => [MKCONSTANT(res, c)]
      case AErased => [NULL(res)]
      case ACrash(m) => [ERROR(m)]
      case _ => [NULL(res)]
  }

  /** A branch: the fields its body uses, then its body. */
  function AltCode(s: int, args: seq<int>, body: seq<VMInst>): seq<VMInst> {
    ProjectArgs(s, 0, Used(body), args) + body
  }

  // ----- Declarations -----

  function FindReg(r: Reg): seq<int> { if r.Loc? then [r.i] else [] }

  /** The registers an instruction writes, as `findVars` lists them: the target of
      `NULL` is not among them. */
  function FindVars(inst: VMInst): seq<int>
    decreases inst, 0
  {
    match inst
    case ASSIGN(r, _) => FindReg(r)
    case MKCON(r, _, _) => FindReg(r)
    case MKCLOSURE(r, _, _, _) => FindReg(r)
    case MKCONSTANT(r, _) => FindReg(r)
    case APPLY(r, _, _) => FindReg(r)
    case CALL(r, _, _, _) => FindReg(r)
    case OP(r, _, _) => FindReg(r)
    case EXTPRIM(r, _, _) => FindReg(r)
    case CASE(_, alts, d) => FindInAlts(alts) + (if d.Default? then FindAll(d.code) else [])
    case CONSTCASE(_, alts, d) => FindInConstAlts(alts) + (if d.Default? then FindAll(d.code) else [])
    case PROJECT(r, _, _) => FindReg(r)
    case _ => []
  }

  function FindAll(code: seq<VMInst>): seq<int>
    decreases code, 0
  {
    if code == [] then [] else FindVars(code[0]) + FindAll(code[1..])
  }

  function FindInAlts(alts: seq<VMAlt>): seq<int>
    decreases alts, 0
  {
    if alts == [] then []
    else
      assert (alts decreases to alts[0]);
      FindAll(alts[0].code) + FindInAlts(alts[1..])
  }

  function FindInConstAlts(alts: seq<VMConstAlt>): seq<int>
    decreases alts, 0
  {
    if alts == [] then []
    else
      assert (alts decreases to alts[0]);
      FindAll(alts[0].code) + FindInConstAlts(alts[1..])
  }

  function DeclareAll(got: set<int>, vs: seq<int>): seq<VMInst>
    decreases |vs|
  {
    if vs == [] then []
    else if vs[0] in got then DeclareAll(got, vs[1..])
    else [DECLARE(Loc(vs[0]))] + DeclareAll(got + {vs[0]}, vs[1..])
  }

  function DeclareVars(got: seq<int>, code: seq<VMInst>): seq<VMInst> {
    DeclareAll(ToSet(got), FindAll(code)) + [START] + code
  }

  function ToVMDef(d: ADef): Option<VMDef> {
    match d
    case MkAFun(args, body) => Some(MkVMFun(args, DeclareVars(args, ToVM(true, RVal, body))))
    case MkACon(_, _) => None
    case MkAForeign(arity) => Some(MkVMForeign(arity))
    case MkAError(expl) => Some(MkVMError(DeclareVars([], ToVM(true, RVal, expl))))
  }
}

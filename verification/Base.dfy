/** Datatypes shared by every intermediate representation: names, constants,
    evaluation outcomes, and a few facts about sequences. */
module Base {

  datatype Option<+T> = None | Some(value: T)

  datatype UserName = Basic(s: string) | Field(f: string) | Underscore

  datatype Name =
    | NS(ns: string, inner: Name)
    | UN(user: UserName)
    | MN(root: string, index: int)
    | PV(pattern: Name, fn: int)
    | DN(display: string, shown: Name)
    | Nested(outer: int, idx: int, nested: Name)
    | CaseBlock(caseOf: string, caseId: int)
    | WithBlock(withOf: string, withId: int)
    | Resolved(id: int)

  type Scope = seq<Name>

  datatype Constant =
    | IntConst(width: nat, i: int)
    | StrConst(s: string)
    | CharConst(c: char)
    | DoubleConst(bits: int)
    | TypeConst(prim: nat)
    | WorldVal

  /** How a primitive is identified: an operator, an external primitive, or a
      foreign definition. */
  datatype PrimKey = OpKey(op: string) | ExtKey(ext: Name) | ForeignKey(foreign: Name)

  /** A constructor is matched by its tag, or by its name when it has none. */
  datatype ConKey = ByTag(tag: int) | ByName(name: Name)

  function KeyOf(n: Name, tag: Option<int>): ConKey {
    match tag
    case Some(t) => ByTag(t)
    case None => ByName(n)
  }

  /** The result of running a term with bounded call depth. `Stuck` covers every
      run that has no meaning: an unbound name, an inapplicable value, a case
      with no matching branch. */
  datatype Outcome<+V> = Value(v: V) | Crash(msg: string) | Stuck | Timeout {
    predicate IsFailure() { !Value? }
    function PropagateFailure<U>(): Outcome<U>
      requires IsFailure()
    {
      match this
      case Crash(m) => Crash(m)
      case Stuck => Stuck
      case Timeout => Timeout
    }
    function Extract(): V
      requires !IsFailure()
    {
      v
    }
  }

  function ToSet(xs: seq<int>): set<int> { set x | x in xs }

  /** The position of the first occurrence of `x`. */
  function Find<T(==)>(xs: seq<T>, x: T): (r: Option<nat>)
    ensures r.Some? ==> r.value < |xs| && xs[r.value] == x && x !in xs[..r.value]
    ensures r.None? ==> x !in xs
  {
    if xs == [] then None
    else if xs[0] == x then Some(0)
    else
      var rest := Find(xs[1..], x);
      if rest.Some? then Some(rest.value + 1) else None
  }

  function Reverse<T>(s: seq<T>): (r: seq<T>)
    ensures |r| == |s|
    ensures forall i :: 0 <= i < |s| ==> r[i] == s[|s| - 1 - i]
  {
    if s == [] then [] else Reverse(s[1..]) + [s[0]]
  }

  lemma ReverseTwice<T>(s: seq<T>)
    ensures Reverse(Reverse(s)) == s
  {
  }

  lemma ReverseCons<T>(x: T, s: seq<T>)
    ensures Reverse([x] + s) == Reverse(s) + [x]
  {
  }
}

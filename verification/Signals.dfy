/** The lock-free signal collector (_/support/c/idris_signal.c): one atomic mask,
    handlers that set bits in it and consumers that load it and later clear a bit. */
module Signals {

  const N_SIGNALS: bv32 := 32

  function Mask(s: bv32): bv32
    requires s < N_SIGNALS
  {
    1 << s
  }

  /** Signal `s` is in the mask. */
  predicate Bit(m: bv32, s: bv32)
    requires s < N_SIGNALS
  {
    m & Mask(s) != 0
  }

  /** `atomic_fetch_or(&signals, 1 << s)` and `atomic_fetch_and(&signals, ~(1 << s))`. */
  function FetchOr(m: bv32, s: bv32): bv32
    requires s < N_SIGNALS
  {
    m | Mask(s)
  }

  function FetchAndNot(m: bv32, s: bv32): bv32
    requires s < N_SIGNALS
  {
    m & !Mask(s)
  }

  lemma OneBit(s: bv32, t: bv32)
    requires s < N_SIGNALS && t < N_SIGNALS
    ensures Mask(s) != 0 && (s != t ==> Mask(s) & Mask(t) == 0)
  {
  }

  lemma OrMask(m: bv32, a: bv32, b: bv32)
    ensures a & b == 0 ==> (m | a) & b == m & b
    ensures (m | a) & a == a
  {
  }

  lemma AndNotMask(m: bv32, a: bv32, b: bv32)
    ensures a & b == 0 ==> (m & !a) & b == m & b
    ensures (m & !a) & a == 0
  {
  }

  lemma OrSets(m: bv32, s: bv32, t: bv32)
    requires s < N_SIGNALS && t < N_SIGNALS
    ensures Bit(FetchOr(m, s), t) <==> t == s || Bit(m, t)
  {
    hide Mask, FetchOr;
    OneBit(s, t);
    OrAt(m, s, t);
  }

  lemma OrAt(m: bv32, s: bv32, t: bv32)
    requires s < N_SIGNALS && t < N_SIGNALS
    ensures FetchOr(m, s) & Mask(t) == if t == s then Mask(t) else m & Mask(t)
  {
    OneBit(s, t);
    OrMask(m, Mask(s), Mask(t));
    hide Mask;
  }

  lemma AndClears(m: bv32, s: bv32, t: bv32)
    requires s < N_SIGNALS && t < N_SIGNALS
    ensures Bit(FetchAndNot(m, s), t) <==> t != s && Bit(m, t)
  {
    hide Mask, FetchAndNot;
    AndAt(m, s, t);
  }

  lemma AndAt(m: bv32, s: bv32, t: bv32)
    requires s < N_SIGNALS && t < N_SIGNALS
    ensures FetchAndNot(m, s) & Mask(t) == if t == s then 0 else m & Mask(t)
  {
    OneBit(s, t);
    AndNotMask(m, Mask(s), Mask(t));
    hide Mask;
  }

  lemma NoBits(m: bv32)
    requires forall s: bv32 :: s < N_SIGNALS ==> !Bit(m, s)
    ensures m == 0
  {
    assert !Bit(m, 0) && !Bit(m, 1) && !Bit(m, 2) && !Bit(m, 3) && !Bit(m, 4) && !Bit(m, 5) && !Bit(m, 6) && !Bit(m, 7);
    assert !Bit(m, 8) && !Bit(m, 9) && !Bit(m, 10) && !Bit(m, 11) && !Bit(m, 12) && !Bit(m, 13) && !Bit(m, 14) && !Bit(m, 15);
    assert !Bit(m, 16) && !Bit(m, 17) && !Bit(m, 18) && !Bit(m, 19) && !Bit(m, 20) && !Bit(m, 21) && !Bit(m, 22) && !Bit(m, 23);
    assert !Bit(m, 24) && !Bit(m, 25) && !Bit(m, 26) && !Bit(m, 27) && !Bit(m, 28) && !Bit(m, 29) && !Bit(m, 30) && !Bit(m, 31);
  }

  /** The signal a consumer picks from what it loaded. */
  ghost predicate Lowest(m: bv32, s: bv32) {
    s < N_SIGNALS && Bit(m, s) && forall t: bv32 :: t < s ==> !Bit(m, t)
  }

  lemma BelowNext(m: bv32, s: bv32)
    requires s < N_SIGNALS && !Bit(m, s) && forall t: bv32 :: t < s ==> !Bit(m, t)
    ensures forall t: bv32 :: t < s + 1 ==> !Bit(m, t)
  {
    hide Bit, FetchOr, FetchAndNot;
    forall t: bv32 | t < s + 1 ensures !Bit(m, t) { assert t < s || t == s; }
  }

  /** The scan of `handle_next_collected_signal`; the abort after its loop is not
      reached. */
  method Scan(snapshot: bv32) returns (signum: bv32)
    requires snapshot != 0
    ensures Lowest(snapshot, signum)
  {
    hide Bit, FetchOr, FetchAndNot;
    signum := 0;
    while signum != N_SIGNALS
      invariant signum <= N_SIGNALS
      invariant forall t: bv32 :: t < signum ==> !Bit(snapshot, t)
      decreases N_SIGNALS - signum
    {
      if Bit(snapshot, signum) { return; }
      BelowNext(snapshot, signum);
      signum := signum + 1;
    }
    NoBits(snapshot);
    assert false;
  }

  // ----- All interleavings -----

  /** A consumer between its load and its clear holds what it loaded. */
  datatype State = State(mask: bv32, loaded: map<int, bv32>)

  datatype Event =
    | Raise(s: bv32)                // a handler runs
    | Load(c: int)                  // consumer `c` reads the mask
    | Return(c: int, s: bv32)       // consumer `c` clears the signal it picked and returns it
    | Nothing(c: int)               // consumer `c` read an empty mask and returns -1

  ghost predicate Enabled(st: State, e: Event) {
    match e
    case Raise(s) => s < N_SIGNALS
    case Load(c) => c !in st.loaded
    case Return(c, s) => c in st.loaded && st.loaded[c] != 0 && Lowest(st.loaded[c], s)
    case Nothing(c) => c in st.loaded && st.loaded[c] == 0
  }

  ghost function Next(st: State, e: Event): State
    requires Enabled(st, e)
  {
    match e
    case Raise(s) => st.(mask := FetchOr(st.mask, s))
    case Load(c) => st.(loaded := st.loaded[c := st.mask])
    case Return(c, s) => State(FetchAndNot(st.mask, s), st.loaded - {c})
    case Nothing(c) => st.(loaded := st.loaded - {c})
  }

  /** A consumer that loaded something can always return: it never aborts. */
  lemma NeverStuck(st: State, c: int)
    requires c in st.loaded && st.loaded[c] != 0
    ensures exists s :: Enabled(st, Return(c, s))
  {
    var m := st.loaded[c];
    if forall s: bv32 :: s < N_SIGNALS ==> !Bit(m, s) { NoBits(m); }
    var s: bv32 :| s < N_SIGNALS && Bit(m, s);
    LowestExists(m, s);
    var t: bv32 :| Lowest(m, t);
    assert Enabled(st, Return(c, t));
  }

  /** What a consumer does next is decided by what it loaded: it returns the lowest
      signal in it, and -1 exactly when there is none. */
  lemma Decided(st: State, c: int) returns (e: Event)
    requires c in st.loaded
    ensures forall f: Event :: (f.Return? || f.Nothing?) && f.c == c ==> (Enabled(st, f) <==> f == e)
    ensures (e.Return? || e.Nothing?) && e.c == c
    ensures e.Nothing? <==> forall s: bv32 :: s < N_SIGNALS ==> !Bit(st.loaded[c], s)
  {
    var m := st.loaded[c];
    if m == 0 {
      e := Nothing(c);
      forall s: bv32 | s < N_SIGNALS ensures !Bit(m, s) { ZeroBit(s); }
    } else {
      NeverStuck(st, c);
      var s :| Enabled(st, Return(c, s));
      e := Return(c, s);
      hide Bit, FetchOr, FetchAndNot;
      forall t: bv32 | Enabled(st, Return(c, t)) ensures t == s {}
    }
  }

  lemma {:induction false} LowestExists(m: bv32, s: bv32)
    requires s < N_SIGNALS && Bit(m, s)
    ensures exists t: bv32 :: Lowest(m, t)
    decreases s
  {
    if t: bv32 :| t < s && Bit(m, t) { LowestExists(m, t); } else { assert Lowest(m, s); }
  }

  const Start: State := State(0, map[])

  /** A run is a list of events, each enabled where it happens. */
  ghost predicate Runs(st: State, es: seq<Event>)
    decreases es
  {
    es == [] || (Enabled(st, es[0]) && Runs(Next(st, es[0]), es[1..]))
  }

  ghost function After(st: State, es: seq<Event>): State
    requires Runs(st, es)
    decreases es
  {
    if es == [] then st else After(Next(st, es[0]), es[1..])
  }

  lemma {:induction false} RunsPrefix(st: State, es: seq<Event>, i: nat)
    requires Runs(st, es) && i <= |es|
    ensures Runs(st, es[..i])
    decreases es
  {
    if i > 0 {
      RunsPrefix(Next(st, es[0]), es[1..], i - 1);
      assert es[..i][1..] == es[1..][..i - 1];
    }
  }

  /** No event of the consumer in the list. */
  predicate Idle(es: seq<Event>, c: int) { forall i :: 0 <= i < |es| ==> es[i].Raise? || es[i].c != c }

  /** Consumer `c` last did a load, at `i`, and the mask was `m` then. */
  ghost predicate LoadedAt(st: State, es: seq<Event>, c: int, i: nat, m: bv32) {
    i < |es| && es[i] == Load(c) && Idle(es[i + 1..], c) && Runs(st, es[..i]) && After(st, es[..i]).mask == m
  }

  /** What a consumer holds is what the mask was when it last loaded. */
  lemma {:induction false} HeldIsLoaded(st: State, es: seq<Event>, c: int) returns (i: nat)
    requires Runs(st, es) && c in After(st, es).loaded
    ensures var m := After(st, es).loaded[c];
            LoadedAt(st, es, c, i, m) || (Idle(es, c) && c in st.loaded && st.loaded[c] == m)
    decreases es
  {
    hide Lowest, FetchOr, FetchAndNot;
    i := 0;
    if es != [] {
      var st', rest := Next(st, es[0]), es[1..];
      var k := HeldIsLoaded(st', rest, c);
      var m := After(st, es).loaded[c];
      if LoadedAt(st', rest, c, k, m) {
        i := k + 1;
        RunsPrefix(st, es, i);
        assert es[..i][1..] == rest[..k] && es[i + 1..] == rest[k + 1..];
      } else if es[0].Raise? || es[0].c != c {
        assert Idle(es, c) by { forall j | 0 <= j < |es| ensures es[j].Raise? || es[j].c != c { if j > 0 { assert es[j] == rest[j - 1]; } } }
      } else {
        assert es[..0] == [] && es[1..] == rest;
      }
    }
  }

  lemma {:induction false} AfterSplit(st: State, es: seq<Event>, i: nat)
    requires Runs(st, es) && i < |es|
    ensures Runs(st, es[..i]) && Enabled(After(st, es[..i]), es[i])
    decreases es
  {
    hide Lowest, FetchOr, FetchAndNot;
    if i > 0 {
      AfterSplit(Next(st, es[0]), es[1..], i - 1);
      assert es[..i][1..] == es[1..][..i - 1] && es[i] == es[1..][i - 1];
    }
  }

  /** In every run, a consumer that returns a signal returns the lowest one that was
      pending when it last loaded, and one that returns -1 loaded when none was. */
  lemma ReturnsWhatWasPending(es: seq<Event>, j: nat) returns (i: nat)
    requires Runs(Start, es) && j < |es| && (es[j].Return? || es[j].Nothing?)
    ensures i < j && es[i] == Load(es[j].c) && Idle(es[i + 1..j], es[j].c) && Runs(Start, es[..i])
    ensures var pending := After(Start, es[..i]).mask;
            if es[j].Return? then Lowest(pending, es[j].s) else forall s: bv32 :: s < N_SIGNALS ==> !Bit(pending, s)
  {
    hide Lowest, FetchOr, FetchAndNot, Bit;
    var c := es[j].c;
    AfterSplit(Start, es, j);
    i := HeldIsLoaded(Start, es[..j], c);
    assert es[..j][..i] == es[..i] && es[..j][i + 1..] == es[i + 1..j];
    if es[j].Nothing? {
      forall s: bv32 | s < N_SIGNALS ensures !Bit(After(Start, es[..i]).mask, s) { ZeroBit(s); }
    }
  }

  predicate Returned(es: seq<Event>, s: bv32) { exists j :: 0 <= j < |es| && es[j].Return? && es[j].s == s }

  lemma ReturnedLater(es: seq<Event>, s: bv32)
    requires es != []
    ensures Returned(es[1..], s) ==> Returned(es, s)
  {
    if j :| 0 <= j < |es[1..]| && es[1..][j].Return? && es[1..][j].s == s {
      assert es[j + 1] == es[1..][j];
    }
  }

  /** A pending signal stays pending until it is returned, whatever else happens:
      clearing one signal never clears another. */
  lemma {:induction false} PendingStays(st: State, es: seq<Event>, s: bv32)
    requires Runs(st, es) && s < N_SIGNALS && Bit(st.mask, s) && !Returned(es, s)
    ensures Bit(After(st, es).mask, s)
    decreases es
  {
    hide Bit, FetchOr, FetchAndNot;
    if es != [] {
      var e := es[0];
      assert !(e.Return? && e.s == s);
      if e.Raise? { OrSets(st.mask, e.s, s); }
      if e.Return? { AndClears(st.mask, e.s, s); }
      ReturnedLater(es, s);
      PendingStays(Next(st, e), es[1..], s);
    }
  }

  /** Nothing is lost: every raise is followed by a return of that signal, or the
      signal is still pending. */
  lemma {:induction false} NothingLost(st: State, es: seq<Event>, i: nat)
    requires Runs(st, es) && i < |es| && es[i].Raise?
    ensures Returned(es[i + 1..], es[i].s) || (es[i].s < N_SIGNALS && Bit(After(st, es).mask, es[i].s))
    decreases es
  {
    var s := es[i].s;
    if i > 0 {
      assert es[1..][i - 1] == es[i] && es[1..][i..] == es[i + 1..];
      NothingLost(Next(st, es[0]), es[1..], i - 1);
    } else if !Returned(es[1..], s) {
      OrSets(st.mask, s, s);
      PendingStays(Next(st, es[0]), es[1..], s);
    }
  }

  // ----- A sole consumer -----

  function Raises(es: seq<Event>, s: bv32): nat {
    if es == [] then 0 else (if es[0] == Raise(s) then 1 else 0) + Raises(es[1..], s)
  }

  function Returns(es: seq<Event>, s: bv32): nat {
    if es == [] then 0 else (if es[0].Return? && es[0].s == s then 1 else 0) + Returns(es[1..], s)
  }

  predicate OnlyConsumer(es: seq<Event>, c: int) {
    forall i :: 0 <= i < |es| ==> (es[i].Raise? || es[i].c == c)
  }

  /** What the consumer loaded is still pending. */
  ghost predicate Held(st: State, c: int) {
    (forall d :: d in st.loaded ==> d == c) &&
    (c in st.loaded ==> forall s: bv32 :: s < N_SIGNALS && Bit(st.loaded[c], s) ==> Bit(st.mask, s))
  }

  ghost function Pending(st: State, s: bv32): nat
    requires s < N_SIGNALS
  {
    if Bit(st.mask, s) then 1 else 0
  }

  lemma HeldNext(st: State, e: Event, c: int)
    requires Enabled(st, e) && Held(st, c) && (e.Raise? || e.c == c)
    ensures Held(Next(st, e), c)
  {
    hide Bit, FetchOr, FetchAndNot;
    var st' := Next(st, e);
    if c in st'.loaded && e.Raise? {
      forall s: bv32 | s < N_SIGNALS && Bit(st'.loaded[c], s) ensures Bit(st'.mask, s) { OrSets(st.mask, e.s, s); }
    }
  }

  /** One consumer on its own returns a signal no more often than it was raised. */
  lemma {:induction false} ReturnsBounded(st: State, es: seq<Event>, c: int, s: bv32)
    requires Runs(st, es) && OnlyConsumer(es, c) && Held(st, c) && s < N_SIGNALS
    ensures Returns(es, s) + Pending(After(st, es), s) <= Raises(es, s) + Pending(st, s)
    decreases es
  {
    hide Bit, FetchOr, FetchAndNot;
    if es != [] {
      var e := es[0];
      HeldNext(st, e, c);
      assert OnlyConsumer(es[1..], c);
      ReturnsBounded(Next(st, e), es[1..], c, s);
      if e.Raise? { OrSets(st.mask, e.s, s); }
      if e.Return? { AndClears(st.mask, e.s, s); }
    }
  }

  lemma SoleConsumer(es: seq<Event>, c: int, s: bv32)
    requires Runs(Start, es) && OnlyConsumer(es, c) && s < N_SIGNALS
    ensures Returns(es, s) <= Raises(es, s)
  {
    ReturnsBounded(Start, es, c, s);
  }

  /** One signal raised, loaded by two consumers and returned by both. */
  function Doubled(c: int, d: int, s: bv32): seq<Event> { [Raise(s), Load(c), Load(d), Return(c, s), Return(d, s)] }

  /** Any two consumers can both return a signal that was raised once. */
  lemma TwoConsumers(c: int, d: int, s: bv32)
    requires c != d && s < N_SIGNALS
    ensures Runs(Start, Doubled(c, d, s)) && Raises(Doubled(c, d, s), s) == 1 && Returns(Doubled(c, d, s), s) == 2
  {
    var es := Doubled(c, d, s);
    var m := FetchOr(0, s);
    LowestRaised(s);
    hide Bit, Lowest, FetchOr, FetchAndNot;
    var s1 := Next(Start, es[0]);
    var s2 := Next(s1, es[1]);
    var s3 := Next(s2, es[2]);
    var s4 := Next(s3, es[3]);
    assert Enabled(s4, es[4]);
    var s5 := Next(s4, es[4]);
    assert es[4..] == [es[4]] && es[5..] == [];
    assert Runs(s5, es[5..]) && Runs(s4, es[4..]);
    assert es[3..][1..] == es[4..] && es[2..][1..] == es[3..] && es[1..][1..] == es[2..];
    assert Runs(s3, es[3..]) && Runs(s2, es[2..]) && Runs(s1, es[1..]);
    assert Raises(es[4..], s) == 0 && Returns(es[4..], s) == 1;
    assert Raises(es[3..], s) == 0 && Returns(es[3..], s) == 2;
    assert Raises(es[2..], s) == 0 && Returns(es[2..], s) == 2;
    assert Raises(es[1..], s) == 0 && Returns(es[1..], s) == 2;
  }

  lemma LowestRaised(s: bv32)
    requires s < N_SIGNALS
    ensures Lowest(FetchOr(0, s), s) && FetchOr(0, s) != 0
  {
    hide Bit, FetchOr;
    forall t: bv32 | t < s ensures !Bit(FetchOr(0, s), t) {
      OrSets(0, s, t);
      ZeroBit(t);
    }
    OrSets(0, s, s);
    ZeroBit(s);
  }

  lemma ZeroBit(s: bv32)
    requires s < N_SIGNALS
    ensures !Bit(0, s)
  {
  }

  predicate OnlyConsumers(es: seq<Event>, cs: iset<int>) {
    forall i :: 0 <= i < |es| ==> (es[i].Raise? || es[i].c in cs)
  }

  /** However these consumers interleave, a signal is returned no more often than raised. */
  ghost predicate NeverTwice(cs: iset<int>) {
    forall es, s: bv32 :: Runs(Start, es) && OnlyConsumers(es, cs) && s < N_SIGNALS ==> Returns(es, s) <= Raises(es, s)
  }

  /** Signals are returned no more often than raised, over all runs, if and only if
      there is at most one consumer. */
  lemma NeverTwiceIff(cs: iset<int>)
    ensures NeverTwice(cs) <==> forall c, d :: c in cs && d in cs ==> c == d
  {
    if forall c, d :: c in cs && d in cs ==> c == d {
      var c := 0;
      if d :| d in cs { c := d; }
      forall es, s: bv32 | Runs(Start, es) && OnlyConsumers(es, cs) && s < N_SIGNALS ensures Returns(es, s) <= Raises(es, s) {
        assert OnlyConsumer(es, c);
        SoleConsumer(es, c, s);
      }
    } else {
      var c, d :| c in cs && d in cs && c != d;
      TwoConsumers(c, d, 0);
      assert OnlyConsumers(Doubled(c, d, 0), cs);
    }
  }
}

/** The language the tokenizer of the XML canary accepts (XbrlCanary.idric), spelled out
    on positions of the input, and the proof that the tokenizer decides it and returns
    the only token list that spells the input. */
module XbrlGrammar {
  import opened XbrlTokens

  // ----- The grammar -----

  /** Only white space from `i` to `j`. */
  predicate Blank(input: string, i: nat, j: nat) {
    i <= j <= |input| && forall k :: i <= k < j ==> IsSpace(input[k])
  }

  predicate IsName(n: string) {
    && n != [] && (forall k :: 0 <= k < |n| ==> IsNameByte(n[k]))
    && !('0' <= n[0] <= '9') && n[0] != '-' && n[0] != '.'
  }

  predicate IsQuoted(v: string) { forall k :: 0 <= k < |v| ==> v[k] != '"' && v[k] != '<' && v[k] != '&' }

  predicate IsText(v: string) { v != [] && forall k :: 0 <= k < |v| ==> v[k] != '<' && v[k] != '&' }

  predicate NameAt(input: string, s: Span, n: string) { Slice(input, s, n) && IsName(n) }

  predicate CharAt(input: string, i: nat, c: char) { i < |input| && input[i] == c }

  /** Between `i` and `j` stands one `=` with white space around it. */
  ghost predicate EqualsSign(input: string, i: nat, j: nat) {
    exists e: nat :: Blank(input, i, e) && CharAt(input, e, '=') && Blank(input, e + 1, j)
  }

  /** A name, an equals sign and a quoted value. */
  ghost predicate AttrSpelled(input: string, a: Attribute) {
    && NameAt(input, a.nameSpan, a.name) && Slice(input, a.valueSpan, a.value) && IsQuoted(a.value)
    && a.valueSpan.lower > 0 && EqualsSign(input, a.nameSpan.upper, a.valueSpan.lower - 1)
    && CharAt(input, a.valueSpan.lower - 1, '"') && CharAt(input, a.valueSpan.upper, '"')
  }

  function AttrEnd(a: Attribute): nat { a.valueSpan.upper + 1 }

  /** Attributes side by side from `lo`, each with white space before it. */
  ghost predicate AttrsSpelled(input: string, lo: nat, attrs: seq<Attribute>)
    decreases attrs
  {
    attrs != [] ==>
      && lo < attrs[0].nameSpan.lower && Blank(input, lo, attrs[0].nameSpan.lower) && AttrSpelled(input, attrs[0])
      && AttrsSpelled(input, AttrEnd(attrs[0]), attrs[1..])
  }

  function AttrsEnd(lo: nat, attrs: seq<Attribute>): nat {
    if attrs == [] then lo else AttrEnd(attrs[|attrs| - 1])
  }

  predicate DistinctAttrs(attrs: seq<Attribute>) {
    forall i, j :: 0 <= i < j < |attrs| ==> attrs[i].name != attrs[j].name
  }

  /** The attributes of a tag with room for `limit` of them, and the `>` at `hi` after
      them. With the room used up no white space may come before it. */
  ghost predicate AttrListSpelled(input: string, lo: nat, attrs: seq<Attribute>, limit: nat, hi: nat) {
    && AttrsSpelled(input, lo, attrs) && |attrs| <= limit && Blank(input, AttrsEnd(lo, attrs), hi)
    && (|attrs| == limit ==> hi == AttrsEnd(lo, attrs)) && CharAt(input, hi, '>')
  }

  /** What the input holds at the token's span is that token, all of it. */
  ghost predicate Spelled(input: string, t: Token) {
    match t
    case StartTag(s, n, ns, attrs) =>
      && s.upper > 0 && CharAt(input, s.lower, '<') && ns.lower == s.lower + 1 && NameAt(input, ns, n)
      && AttrListSpelled(input, ns.upper, attrs, 8, s.upper - 1) && DistinctAttrs(attrs)
    case EndTag(s, n, ns) =>
      && s.upper > 0 && CharAt(input, s.lower, '<') && CharAt(input, s.lower + 1, '/')
      && ns.lower == s.lower + 2 && NameAt(input, ns, n)
      && Blank(input, ns.upper, s.upper - 1) && CharAt(input, s.upper - 1, '>')
    case TextToken(s, v) => Slice(input, s, v) && IsText(v)
  }

  /** The tokens spell the input from `lo` to its end, with no text next to text. */
  ghost predicate AllSpelled(input: string, lo: nat, toks: seq<Token>)
    decreases toks
  {
    if toks == [] then lo == |input|
    else
      && toks[0].span.lower == lo < toks[0].span.upper && Spelled(input, toks[0])
      && (toks[0].TextToken? && |toks| > 1 ==> !toks[1].TextToken?)
      && AllSpelled(input, toks[0].span.upper, toks[1..])
  }

  // ----- Scanning -----

  lemma KeepsWhat(c: char)
    ensures Keeps(NameState, c) <==> IsNameByte(c)
    ensures Keeps(QuotedState, c) <==> c != '"' && c != '<' && c != '&'
    ensures Keeps(DataState, c) <==> c != '<' && c != '&'
    ensures StateClassStep(NameState, ClassifyByte(c)) == StopBefore <==> IsSpace(c) || c in "=/>"
    ensures StateClassStep(QuotedState, ClassifyByte(c)) == StopBefore <==> c == '"'
    ensures StateClassStep(DataState, ClassifyByte(c)) == StopBefore <==> c == '<' || c == '&'
  {
  }

  lemma {:induction false} SkipReaches(input: string, i: nat, j: nat)
    requires Blank(input, i, j) && (j < |input| ==> !IsSpace(input[j]))
    ensures SkipSpace(At(i, input[i..])) == At(j, input[j..])
    decreases j - i
  {
    if i < j {
      assert input[i..][1..] == input[i + 1..];
      SkipReaches(input, i + 1, j);
    }
  }

  lemma {:induction false} SkipIs(input: string, cur: Cursor)
    requires Stands(input, cur)
    ensures
      var r := SkipSpace(cur);
      Stands(input, r) && Blank(input, cur.offset, r.offset) && (r.offset < |input| ==> !IsSpace(input[r.offset]))
    decreases cur.remaining
  {
    if cur.remaining != [] && IsSpace(cur.remaining[0]) {
      Advance(input, cur);
      SkipIs(input, At(cur.offset + 1, cur.remaining[1..]));
    }
  }

  lemma {:induction false} ScanReaches(input: string, s: ScanState, start: nat, pos: nat, hi: nat)
    requires start <= pos <= hi <= |input| && forall k :: pos <= k < hi ==> Keeps(s, input[k])
    requires hi < |input| ==> StateClassStep(s, ClassifyByte(input[hi])) == StopBefore
    ensures ScanLoop(s, start, pos, input[start..pos], input[pos..]) ==
            Right(Scanned(input[start..hi], Between(start, hi), At(hi, input[hi..])))
    decreases hi - pos
  {
    if pos < hi {
      assert input[pos..][1..] == input[pos + 1..] && input[start..pos] + [input[pos]] == input[start..pos + 1];
      ScanReaches(input, s, start, pos + 1, hi);
    } else if hi == |input| {
      assert input[hi..] == [];
    }
  }

  lemma RunReaches(input: string, s: ScanState, lo: nat, hi: nat)
    requires lo <= hi <= |input| && forall k :: lo <= k < hi ==> Keeps(s, input[k])
    requires hi < |input| ==> StateClassStep(s, ClassifyByte(input[hi])) == StopBefore
    ensures ScanRun(s, At(lo, input[lo..])) == Right(Scanned(input[lo..hi], Between(lo, hi), At(hi, input[hi..])))
  {
    ScanReaches(input, s, lo, lo, hi);
    assert input[lo..lo] == [];
  }

  lemma NameReaches(input: string, s: Span, n: string)
    requires NameAt(input, s, n) && (s.upper < |input| ==> IsSpace(input[s.upper]) || input[s.upper] in "=/>")
    ensures ReadName(At(s.lower, input[s.lower..])) == Right(Scanned(n, s, At(s.upper, input[s.upper..])))
  {
    forall k | s.lower <= k < s.upper ensures Keeps(NameState, input[k]) {
      assert input[k] == n[k - s.lower];
      KeepsWhat(input[k]);
    }
    if s.upper < |input| { KeepsWhat(input[s.upper]); }
    RunReaches(input, NameState, s.lower, s.upper);
  }

  lemma NameIs(input: string, cur: Cursor)
    requires Stands(input, cur) && ReadName(cur).Right?
    ensures
      var r := ReadName(cur).value;
      NameAt(input, r.span, r.value) && r.span.lower == cur.offset && r.after.offset == r.span.upper && Stands(input, r.after)
  {
    NameStands(input, cur);
    RunStands(input, NameState, cur);
    var n := ReadName(cur).value.value;
    forall k | 0 <= k < |n| ensures IsNameByte(n[k]) { KeepsWhat(n[k]); }
  }

  lemma ExpectReaches(input: string, c: char, i: nat)
    requires CharAt(input, i, c)
    ensures Expect(c, At(i, input[i..])) == Right(At(i + 1, input[i + 1..]))
  {
    assert input[i..][1..] == input[i + 1..];
  }

  // ----- Attributes -----

  /** From the end of a name past the equals sign to the opening quote. */
  lemma EqualsReaches(input: string, i: nat, q: nat)
    requires EqualsSign(input, i, q) && CharAt(input, q, '"')
    ensures i < |input| && (IsSpace(input[i]) || input[i] in "=/>")
    ensures
      var eq := Expect('=', SkipSpace(At(i, input[i..])));
      eq.Right? && Expect('"', SkipSpace(eq.value)) == Right(At(q + 1, input[q + 1..]))
  {
    hide SkipSpace, Expect;
    var e: nat :| Blank(input, i, e) && CharAt(input, e, '=') && Blank(input, e + 1, q);
    SkipReaches(input, i, e);
    ExpectReaches(input, '=', e);
    SkipReaches(input, e + 1, q);
    ExpectReaches(input, '"', q);
  }

  lemma QuotedReaches(input: string, v: Span, value: string)
    requires Slice(input, v, value) && IsQuoted(value) && CharAt(input, v.upper, '"')
    ensures ScanRun(QuotedState, At(v.lower, input[v.lower..])) == Right(Scanned(value, v, At(v.upper, input[v.upper..])))
  {
    forall k | v.lower <= k < v.upper ensures Keeps(QuotedState, input[k]) {
      assert input[k] == value[k - v.lower];
      KeepsWhat(input[k]);
    }
    KeepsWhat('"');
    RunReaches(input, QuotedState, v.lower, v.upper);
  }

  lemma AttrReaches(input: string, a: Attribute)
    requires AttrSpelled(input, a)
    ensures ReadAttribute(At(a.nameSpan.lower, input[a.nameSpan.lower..])) == Right((a, At(AttrEnd(a), input[AttrEnd(a)..])))
  {
    hide ReadName, SkipSpace, ScanRun, Expect, EqualsSign, IsName, IsQuoted, IsSpace;
    EqualsReaches(input, a.nameSpan.upper, a.valueSpan.lower - 1);
    NameReaches(input, a.nameSpan, a.name);
    QuotedReaches(input, a.valueSpan, a.value);
    ExpectReaches(input, '"', a.valueSpan.upper);
  }

  lemma AttrIs(input: string, cur: Cursor)
    requires Stands(input, cur) && ReadAttribute(cur).Right?
    ensures
      var r := ReadAttribute(cur).value;
      AttrSpelled(input, r.0) && r.0.nameSpan.lower == cur.offset && r.1.offset == AttrEnd(r.0) && Stands(input, r.1)
  {
    hide ReadName, SkipSpace, ScanRun, ScanLoop;
    NameIs(input, cur);
    var key := ReadName(cur).value;
    SkipIs(input, key.after);
    var e := SkipSpace(key.after);
    ExpectStands(input, '=', e);
    var eq := Expect('=', e).value;
    SkipIs(input, eq);
    var q := SkipSpace(eq);
    ExpectStands(input, '"', q);
    var quoted := Expect('"', q).value;
    RunStands(input, QuotedState, quoted);
    var val := ScanRun(QuotedState, quoted).value;
    ExpectStands(input, '"', val.after);
    forall k | 0 <= k < |val.value| ensures val.value[k] != '"' && val.value[k] != '<' && val.value[k] != '&' { KeepsWhat(val.value[k]); }
    assert EqualsSign(input, key.after.offset, q.offset) by {
      assert Blank(input, key.after.offset, e.offset) && CharAt(input, e.offset, '=') && Blank(input, e.offset + 1, q.offset);
    }
  }

  lemma FirstChar(input: string, i: nat)
    requires i < |input|
    ensures input[i..] != [] && input[i..][0] == input[i]
  {
  }

  lemma ListEnds(input: string, lo: nat, fuel: nat, acc: seq<Attribute>, hi: nat)
    requires lo <= |input| && AttrListSpelled(input, lo, [], fuel, hi)
    ensures ReadAttributes(fuel, At(lo, input[lo..]), acc) == Right((acc, At(hi + 1, input[hi + 1..])))
  {
    hide ReadAttribute, SkipSpace, AttrsSpelled;
    SkipReaches(input, lo, hi);
    assert input[hi..][1..] == input[hi + 1..];
    FirstChar(input, lo);
    FirstChar(input, hi);
  }

  /** One attribute more. */
  lemma ListStep(input: string, lo: nat, fuel: nat, acc: seq<Attribute>, a: Attribute)
    requires lo < a.nameSpan.lower && Blank(input, lo, a.nameSpan.lower) && AttrSpelled(input, a) && fuel > 0
    requires forall b :: b in acc ==> b.name != a.name
    ensures AttrEnd(a) <= |input|
    ensures ReadAttributes(fuel, At(lo, input[lo..]), acc) ==
            ReadAttributes(fuel - 1, At(AttrEnd(a), input[AttrEnd(a)..]), acc + [a])
  {
    var i := a.nameSpan.lower;
    FirstChar(input, lo);
    NameStart(input, a.nameSpan, a.name);
    SkipReaches(input, lo, i);
    FirstChar(input, i);
    AttrReaches(input, a);
    hide ReadAttribute, SkipSpace, AttrSpelled;
  }

  lemma {:induction false} AttrsReach(input: string, lo: nat, fuel: nat, acc: seq<Attribute>, attrs: seq<Attribute>, hi: nat)
    requires lo <= |input| && AttrListSpelled(input, lo, attrs, fuel, hi) && DistinctAttrs(acc + attrs)
    ensures ReadAttributes(fuel, At(lo, input[lo..]), acc) == Right((acc + attrs, At(hi + 1, input[hi + 1..])))
    decreases fuel
  {
    hide ReadAttributes, AttrSpelled, Blank;
    if attrs == [] {
      assert acc + attrs == acc;
      ListEnds(input, lo, fuel, acc, hi);
    } else {
      var a := attrs[0];
      assert acc + attrs == acc + [a] + attrs[1..];
      forall b | b in acc ensures b.name != a.name {
        var k :| 0 <= k < |acc| && acc[k] == b;
        assert (acc + attrs)[k] == b && (acc + attrs)[|acc|] == a;
      }
      ListStep(input, lo, fuel, acc, a);
      assert AttrsEnd(AttrEnd(a), attrs[1..]) == AttrsEnd(lo, attrs);
      AttrsReach(input, AttrEnd(a), fuel - 1, acc + [a], attrs[1..], hi);
    }
  }

  /** A name does not start with white space, `>` or `/`. */
  lemma NameStart(input: string, s: Span, n: string)
    requires NameAt(input, s, n)
    ensures s.lower < |input| && !IsSpace(input[s.lower]) && input[s.lower] !in ">/"
  {
    assert input[s.lower] == n[0];
  }

  lemma DistinctMore(acc: seq<Attribute>, a: Attribute)
    requires DistinctAttrs(acc) && forall b :: b in acc ==> b.name != a.name
    ensures DistinctAttrs(acc + [a])
  {
    var all := acc + [a];
    forall i, j | 0 <= i < j < |all| ensures all[i].name != all[j].name {
      if j == |acc| { assert acc[i] in acc; }
    }
  }

  lemma ListCons(input: string, lo: nat, a: Attribute, rest: seq<Attribute>, fuel: nat, hi: nat)
    requires lo < a.nameSpan.lower && Blank(input, lo, a.nameSpan.lower) && AttrSpelled(input, a) && fuel > 0
    requires AttrListSpelled(input, AttrEnd(a), rest, fuel - 1, hi)
    ensures AttrListSpelled(input, lo, [a] + rest, fuel, hi)
  {
    hide AttrSpelled, Blank;
    var attrs := [a] + rest;
    assert attrs[1..] == rest && AttrsEnd(lo, attrs) == AttrsEnd(AttrEnd(a), rest);
  }

  /** Where a tag ends after white space only. */
  lemma ListNil(input: string, lo: nat, fuel: nat, hi: nat)
    requires Blank(input, lo, hi) && CharAt(input, hi, '>') && (fuel == 0 ==> hi == lo)
    ensures AttrListSpelled(input, lo, [], fuel, hi)
  {
  }

  lemma {:induction false} AttrsAre(input: string, fuel: nat, cur: Cursor, acc: seq<Attribute>) returns (attrs: seq<Attribute>)
    requires Stands(input, cur) && ReadAttributes(fuel, cur, acc).Right? && DistinctAttrs(acc)
    ensures
      var r := ReadAttributes(fuel, cur, acc).value;
      && r.0 == acc + attrs && DistinctAttrs(r.0) && Stands(input, r.1) && r.1.offset > 0
      && AttrListSpelled(input, cur.offset, attrs, fuel, r.1.offset - 1)
    decreases fuel
  {
    hide ReadAttribute, SkipSpace, AttrSpelled, AttrListSpelled, DistinctAttrs;
    if cur.remaining[0] == '>' {
      attrs := [];
      assert acc + attrs == acc;
      Advance(input, cur);
      ListNil(input, cur.offset, fuel, cur.offset);
    } else {
      var next := SkipSpace(cur);
      SkipIs(input, cur);
      if next.remaining != [] && next.remaining[0] == '>' {
        attrs := [];
        assert acc + attrs == acc;
        Advance(input, next);
        ListNil(input, cur.offset, fuel, next.offset);
      } else {
        AttrIs(input, next);
        var r := ReadAttribute(next).value;
        SpaceAhead(input, cur);
        DistinctMore(acc, r.0);
        var rest := AttrsAre(input, fuel - 1, r.1, acc + [r.0]);
        attrs := [r.0] + rest;
        assert acc + [r.0] + rest == acc + attrs;
        ListCons(input, cur.offset, r.0, rest, fuel, ReadAttributes(fuel, cur, acc).value.1.offset - 1);
      }
    }
  }

  lemma SpaceAhead(input: string, cur: Cursor)
    requires Stands(input, cur) && cur.remaining != [] && IsSpace(cur.remaining[0])
    ensures cur.offset < SkipSpace(cur).offset
  {
    Advance(input, cur);
    SkipIs(input, At(cur.offset + 1, cur.remaining[1..]));
  }

  // ----- Tags -----

  lemma AfterName(input: string, lo: nat, attrs: seq<Attribute>, hi: nat)
    requires AttrListSpelled(input, lo, attrs, 8, hi)
    ensures lo < |input| && (IsSpace(input[lo]) || input[lo] in "=/>")
  {
    hide AttrSpelled;
    if attrs != [] { assert Blank(input, lo, attrs[0].nameSpan.lower); }
  }

  lemma TagReaches(input: string, t: Token)
    requires Spelled(input, t) && !t.TextToken?
    ensures t.span.lower < t.span.upper <= |input|
    ensures ReadTag(At(t.span.lower, input[t.span.lower..])) == Right((t, At(t.span.upper, input[t.span.upper..])))
  {
    hide *;
    if t.StartTag? { StartReaches(input, t); } else { EndReaches(input, t); }
  }

  lemma StartReaches(input: string, t: Token)
    requires Spelled(input, t) && t.StartTag?
    ensures t.span.lower < t.span.upper <= |input|
    ensures ReadTag(At(t.span.lower, input[t.span.lower..])) == Right((t, At(t.span.upper, input[t.span.upper..])))
  {
    hide ReadName, SkipSpace, ReadAttributes, AttrsSpelled, IsName, IsSpace;
    var s, ns, attrs := t.span, t.nameSpan, t.attrs;
    ExpectReaches(input, '<', s.lower);
    NameStart(input, ns, t.name);
    FirstChar(input, s.lower + 1);
    AfterName(input, ns.upper, attrs, s.upper - 1);
    NameReaches(input, ns, t.name);
    assert [] + attrs == attrs;
    AttrsReach(input, ns.upper, 8, [], attrs, s.upper - 1);
    AttrsAdvance(input, ns.upper, attrs);
  }

  lemma EndReaches(input: string, t: Token)
    requires Spelled(input, t) && t.EndTag?
    ensures t.span.lower < t.span.upper <= |input|
    ensures ReadTag(At(t.span.lower, input[t.span.lower..])) == Right((t, At(t.span.upper, input[t.span.upper..])))
  {
    hide ReadName, SkipSpace, ReadAttributes, IsName;
    var s, ns := t.span, t.nameSpan;
    ExpectReaches(input, '<', s.lower);
    FirstChar(input, s.lower + 1);
    assert input[s.lower + 1..][1..] == input[s.lower + 2..];
    NameReaches(input, ns, t.name);
    assert !IsSpace('>');
    SkipReaches(input, ns.upper, s.upper - 1);
    ExpectReaches(input, '>', s.upper - 1);
  }

  lemma {:induction false} AttrsAdvance(input: string, lo: nat, attrs: seq<Attribute>)
    requires AttrsSpelled(input, lo, attrs)
    ensures lo <= AttrsEnd(lo, attrs)
    decreases attrs
  {
    if attrs != [] { AttrsAdvance(input, AttrEnd(attrs[0]), attrs[1..]); }
  }

  lemma TagIs(input: string, cur: Cursor)
    requires Stands(input, cur) && ReadTag(cur).Right?
    ensures
      var r := ReadTag(cur).value;
      && !r.0.TextToken? && Spelled(input, r.0) && Stands(input, r.1)
      && r.0.span == Between(cur.offset, r.1.offset) && cur.offset < r.1.offset
  {
    hide ReadName, SkipSpace, ReadAttributes, AttrListSpelled;
    TagStands(input, cur);
    ExpectStands(input, '<', cur);
    var inner := Expect('<', cur).value;
    if inner.remaining != [] && inner.remaining[0] == '/' {
      Advance(input, inner);
      var slash := At(inner.offset + 1, inner.remaining[1..]);
      NameIs(input, slash);
      var key := ReadName(slash).value;
      SkipIs(input, key.after);
      ExpectStands(input, '>', SkipSpace(key.after));
    } else {
      NameIs(input, inner);
      var key := ReadName(inner).value;
      var attrs := AttrsAre(input, 8, key.after, []);
      assert [] + attrs == attrs;
    }
  }

  // ----- Token lists -----

  /** One token more. */
  lemma TokenStep(input: string, fuel: nat, acc: seq<Token>, t: Token, rest: seq<Token>)
    requires fuel > 0 && Spelled(input, t) && AllSpelled(input, t.span.upper, rest)
    requires t.TextToken? && rest != [] ==> !rest[0].TextToken?
    ensures t.span.lower < t.span.upper <= |input|
    ensures Go(fuel, At(t.span.lower, input[t.span.lower..]), acc) ==
            Go(fuel - 1, At(t.span.upper, input[t.span.upper..]), acc + [t])
  {
    if t.TextToken? {
      TextReaches(input, t, rest);
    } else {
      TagReaches(input, t);
      FirstChar(input, t.span.lower);
    }
    hide ReadTag, ScanRun, AllSpelled, AttrListSpelled, NameAt;
  }

  lemma {:induction false} GoReaches(input: string, fuel: nat, lo: nat, acc: seq<Token>, toks: seq<Token>)
    requires lo <= |input| && AllSpelled(input, lo, toks) && |toks| <= fuel
    ensures Go(fuel, At(lo, input[lo..]), acc) == Right((acc + toks, |input|))
    decreases fuel
  {
    hide Spelled;
    if toks == [] {
      assert acc + toks == acc && input[lo..] == [];
    } else {
      var t, rest := toks[0], toks[1..];
      assert acc + toks == acc + [t] + rest;
      hide Go;
      TokenStep(input, fuel, acc, t, rest);
      GoReaches(input, fuel - 1, t.span.upper, acc + [t], rest);
    }
  }

  /** Text at a span starts there, and all its characters are kept. */
  lemma TextKept(input: string, s: Span, v: string)
    requires Slice(input, s, v) && IsText(v)
    ensures s.lower < s.upper <= |input| && input[s.lower] != '<'
    ensures forall k :: s.lower <= k < s.upper ==> Keeps(DataState, input[k])
  {
    forall k | s.lower <= k < s.upper ensures Keeps(DataState, input[k]) {
      assert input[k] == v[k - s.lower];
      KeepsWhat(input[k]);
    }
    assert input[s.lower] == v[0];
  }

  lemma TextReaches(input: string, t: Token, rest: seq<Token>)
    requires t.TextToken? && Spelled(input, t) && AllSpelled(input, t.span.upper, rest) && (rest != [] ==> !rest[0].TextToken?)
    ensures
      var lo, hi := t.span.lower, t.span.upper;
      && lo < hi <= |input| && input[lo..] != [] && input[lo..][0] != '<'
      && ScanRun(DataState, At(lo, input[lo..])) == Right(Scanned(t.value, t.span, At(hi, input[hi..])))
  {
    hide Keeps, ScanRun, IsText, ClassifyByte;
    var lo, hi := t.span.lower, t.span.upper;
    TextKept(input, t.span, t.value);
    if rest != [] {
      assert CharAt(input, hi, '<');
      KeepsWhat('<');
    }
    FirstChar(input, lo);
    RunReaches(input, DataState, lo, hi);
  }

  lemma {:induction false} GoIs(input: string, fuel: nat, cur: Cursor, acc: seq<Token>) returns (toks: seq<Token>)
    requires Stands(input, cur) && Go(fuel, cur, acc).Right?
    ensures Go(fuel, cur, acc).value == (acc + toks, |input|)
    ensures AllSpelled(input, cur.offset, toks) && |toks| <= fuel
    ensures cur.remaining != [] && cur.remaining[0] == '<' ==> toks != [] && !toks[0].TextToken?
    decreases fuel
  {
    hide ReadTag, Spelled;
    if cur.remaining == [] {
      toks := [];
      assert acc + toks == acc;
    } else if cur.remaining[0] == '<' {
      TagIs(input, cur);
      var r := ReadTag(cur).value;
      var rest := GoIs(input, fuel - 1, r.1, acc + [r.0]);
      toks := [r.0] + rest;
      assert acc + [r.0] + rest == acc + toks && toks[1..] == rest;
    } else {
      TextIs(input, cur);
      var found := ScanRun(DataState, cur).value;
      var t := TextToken(found.span, found.value);
      hide ScanRun;
      GoAtEntity(input, fuel - 1, found.after, acc + [t]);
      var rest := GoIs(input, fuel - 1, found.after, acc + [t]);
      toks := [t] + rest;
      assert acc + [t] + rest == acc + toks && toks[1..] == rest;
    }
  }

  lemma TextIs(input: string, cur: Cursor)
    requires Stands(input, cur) && cur.remaining != [] && ScanRun(DataState, cur).Right?
    requires ScanRun(DataState, cur).value.after.offset != cur.offset
    ensures
      var r := ScanRun(DataState, cur).value;
      && Spelled(input, TextToken(r.span, r.value)) && r.span == Between(cur.offset, r.after.offset)
      && cur.offset < r.after.offset && Stands(input, r.after)
      && (r.after.remaining != [] ==> r.after.remaining[0] in "<&")
  {
    RunStands(input, DataState, cur);
    TextStands(input, cur);
  }

  lemma GoAtEntity(input: string, fuel: nat, cur: Cursor, acc: seq<Token>)
    requires Stands(input, cur)
    ensures cur.remaining != [] && cur.remaining[0] == '&' ==> Go(fuel, cur, acc).Left?
  {
    if cur.remaining != [] && cur.remaining[0] == '&' && fuel > 0 && ScanRun(DataState, cur).Right? { NotAtEntity(input, cur); }
  }

  /** The tokenizer returns exactly the token list of at most 64 tokens that spells the
      input, and fails if and only if there is none. */
  lemma TokenizeIff(input: string, toks: seq<Token>)
    ensures Tokenize(input) == Right((toks, |input|)) <==> AllSpelled(input, 0, toks) && |toks| <= 64
    ensures Tokenize(input).Right? ==> Tokenize(input).value.1 == |input|
  {
    hide AllSpelled, Go;
    assert input[0..] == input;
    if Tokenize(input).Right? {
      var ts := GoIs(input, 64, At(0, input), []);
      assert [] + ts == ts;
    }
    if AllSpelled(input, 0, toks) && |toks| <= 64 {
      GoReaches(input, 64, 0, [], toks);
      assert [] + toks == toks;
    }
  }

  /** A tag is an end tag if and only if a slash follows its `<`. */
  lemma EndTagIff(input: string, t: Token)
    requires Spelled(input, t) && !t.TextToken?
    ensures t.EndTag? <==> CharAt(input, t.span.lower + 1, '/')
  {
    NameStart(input, t.nameSpan, t.name);
  }
}

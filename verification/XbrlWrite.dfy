/** Writing tokens down and reading them back (XbrlCanary.idric). */
module XbrlWriting {
  import opened XbrlTokens
  import opened XbrlGrammar

  // ----- Writing -----

  function WriteAttr(a: Attribute): string { " " + a.name + "=\"" + a.value + "\"" }

  function WriteAttrs(attrs: seq<Attribute>): string {
    if attrs == [] then "" else WriteAttr(attrs[0]) + WriteAttrs(attrs[1..])
  }

  function WriteToken(t: Token): string {
    match t
    case StartTag(_, n, _, attrs) => "<" + n + WriteAttrs(attrs) + ">"
    case EndTag(_, n, _) => "</" + n + ">"
    case TextToken(_, v) => v
  }

  function WriteAll(toks: seq<Token>): string {
    if toks == [] then "" else WriteToken(toks[0]) + WriteAll(toks[1..])
  }

  /** The spans of what is written at position `p`. */
  function PlaceAttr(a: Attribute, p: nat): Attribute {
    var q := p + 1 + |a.name|;
    Attr(a.name, Between(p + 1, q), a.value, Between(q + 2, q + 2 + |a.value|))
  }

  function PlaceAttrs(attrs: seq<Attribute>, p: nat): (r: seq<Attribute>)
    ensures |r| == |attrs|
  {
    if attrs == [] then [] else [PlaceAttr(attrs[0], p)] + PlaceAttrs(attrs[1..], p + |WriteAttr(attrs[0])|)
  }

  function Place(t: Token, p: nat): Token {
    var s := Between(p, p + |WriteToken(t)|);
    match t
    case StartTag(_, n, _, attrs) =>
      StartTag(s, n, Between(p + 1, p + 1 + |n|), PlaceAttrs(attrs, p + 1 + |n|))
    case EndTag(_, n, _) => EndTag(s, n, Between(p + 2, p + 2 + |n|))
    case TextToken(_, v) => TextToken(s, v)
  }

  function PlaceAll(toks: seq<Token>, p: nat): (r: seq<Token>)
    ensures |r| == |toks|
  {
    if toks == [] then [] else [Place(toks[0], p)] + PlaceAll(toks[1..], p + |WriteToken(toks[0])|)
  }

  // ----- What can be written -----

  predicate WritableToken(t: Token) {
    match t
    case StartTag(_, n, _, attrs) =>
      && IsName(n) && |attrs| <= 8 && DistinctAttrs(attrs)
      && forall i :: 0 <= i < |attrs| ==> IsName(attrs[i].name) && IsQuoted(attrs[i].value)
    case EndTag(_, n, _) => IsName(n)
    case TextToken(_, v) => IsText(v)
  }

  predicate Writable(toks: seq<Token>) {
    && (forall i :: 0 <= i < |toks| ==> WritableToken(toks[i]))
    && (forall i :: 0 <= i < |toks| - 1 ==> !(toks[i].TextToken? && toks[i + 1].TextToken?))
  }

  /** Attributes, and tokens, that differ in spans at most. */
  predicate AttrsAlike(xs: seq<Attribute>, ys: seq<Attribute>) {
    |xs| == |ys| && forall i :: 0 <= i < |xs| ==> xs[i].name == ys[i].name && xs[i].value == ys[i].value
  }

  predicate Alike(t: Token, u: Token) {
    match (t, u)
    case (StartTag(_, n, _, xs), StartTag(_, m, _, ys)) => n == m && AttrsAlike(xs, ys)
    case (EndTag(_, n, _), EndTag(_, m, _)) => n == m
    case (TextToken(_, v), TextToken(_, w)) => v == w
    case _ => false
  }

  lemma {:induction false} PlacedAttrsAlike(attrs: seq<Attribute>, p: nat)
    ensures AttrsAlike(PlaceAttrs(attrs, p), attrs)
    decreases attrs
  {
    if attrs != [] {
      PlacedAttrsAlike(attrs[1..], p + |WriteAttr(attrs[0])|);
      var r := PlaceAttrs(attrs, p);
      forall i | 0 <= i < |r| ensures r[i].name == attrs[i].name && r[i].value == attrs[i].value {
        if i > 0 { assert r[i] == PlaceAttrs(attrs[1..], p + |WriteAttr(attrs[0])|)[i - 1] && attrs[i] == attrs[1..][i - 1]; }
      }
    }
  }

  lemma {:induction false} PlacedAlike(toks: seq<Token>, p: nat)
    ensures forall i :: 0 <= i < |toks| ==> Alike(PlaceAll(toks, p)[i], toks[i])
    decreases toks
  {
    if toks != [] {
      var q := p + |WriteToken(toks[0])|;
      PlacedAlike(toks[1..], q);
      if toks[0].StartTag? { PlacedAttrsAlike(toks[0].attrs, p + 1 + |toks[0].name|); }
      hide WriteToken, PlaceAttrs, AttrsAlike;
      forall i | 0 <= i < |toks| ensures Alike(PlaceAll(toks, p)[i], toks[i]) {
        if i > 0 { assert PlaceAll(toks, p)[i] == PlaceAll(toks[1..], q)[i - 1] && toks[i] == toks[1..][i - 1]; }
      }
    }
  }

  // ----- What is written is spelled -----

  /** The input holds `w` at position `i`. */
  predicate Holds(input: string, i: nat, w: string) { i + |w| <= |input| && input[i..i + |w|] == w }

  lemma HoldsTwo(input: string, i: nat, u: string, v: string)
    requires Holds(input, i, u + v)
    ensures Holds(input, i, u) && Holds(input, i + |u|, v)
  {
    var w := u + v;
    assert input[i..i + |w|][..|u|] == input[i..i + |u|];
    assert input[i..i + |w|][|u|..] == input[i + |u|..i + |w|];
  }

  lemma HoldsChar(input: string, i: nat, c: char)
    requires Holds(input, i, [c])
    ensures CharAt(input, i, c)
  {
    assert input[i..i + 1][0] == input[i];
  }

  lemma HoldsHere(input: string, i: nat, w: string)
    requires Holds(input, i, w)
    ensures Slice(input, Between(i, i + |w|), w) && Blank(input, i, i) && Blank(input, i + |w|, i + |w|)
  {
  }

  lemma HoldsSpace(input: string, i: nat)
    requires Holds(input, i, " ")
    ensures Blank(input, i, i + 1)
  {
    HoldsChar(input, i, ' ');
  }

  /** The pieces of an attribute as written. */
  lemma AttrPieces(input: string, p: nat, a: Attribute)
    requires Holds(input, p, WriteAttr(a))
    ensures
      var q := p + 1 + |a.name|;
      && Holds(input, p, " ") && Holds(input, p + 1, a.name) && Holds(input, q, "=") && Holds(input, q + 1, "\"")
      && Holds(input, q + 2, a.value) && Holds(input, q + 2 + |a.value|, "\"") && p + |WriteAttr(a)| == q + 3 + |a.value|
  {
    hide Holds;
    var q := p + 1 + |a.name|;
    var v := a.value + "\"";
    assert WriteAttr(a) == " " + (a.name + ("=" + ("\"" + v)));
    HoldsTwo(input, p, " ", a.name + ("=" + ("\"" + v)));
    HoldsTwo(input, p + 1, a.name, "=" + ("\"" + v));
    HoldsTwo(input, q, "=", "\"" + v);
    HoldsTwo(input, q + 1, "\"", v);
    HoldsTwo(input, q + 2, a.value, "\"");
  }

  lemma AttrWritten(input: string, p: nat, a: Attribute)
    requires Holds(input, p, WriteAttr(a)) && IsName(a.name) && IsQuoted(a.value)
    ensures AttrSpelled(input, PlaceAttr(a, p)) && Blank(input, p, p + 1) && AttrEnd(PlaceAttr(a, p)) == p + |WriteAttr(a)|
  {
    hide Holds, WriteAttr, IsName, IsQuoted, Blank;
    var q := p + 1 + |a.name|;
    AttrPieces(input, p, a);
    HoldsSpace(input, p);
    HoldsHere(input, p + 1, a.name);
    HoldsHere(input, q, "=");
    HoldsHere(input, q + 2, a.value);
    HoldsChar(input, q, '=');
    HoldsChar(input, q + 1, '"');
    HoldsChar(input, q + 2 + |a.value|, '"');
    assert EqualsSign(input, q, q + 1);
  }

  lemma {:induction false} AttrsWritten(input: string, p: nat, attrs: seq<Attribute>)
    requires Holds(input, p, WriteAttrs(attrs))
    requires forall i :: 0 <= i < |attrs| ==> IsName(attrs[i].name) && IsQuoted(attrs[i].value)
    ensures AttrsSpelled(input, p, PlaceAttrs(attrs, p)) && AttrsEnd(p, PlaceAttrs(attrs, p)) == p + |WriteAttrs(attrs)|
    decreases attrs
  {
    hide WriteAttr, AttrSpelled;
    if attrs != [] {
      var q := p + |WriteAttr(attrs[0])|;
      HoldsTwo(input, p, WriteAttr(attrs[0]), WriteAttrs(attrs[1..]));
      AttrWritten(input, p, attrs[0]);
      AttrsWritten(input, q, attrs[1..]);
      var r := PlaceAttrs(attrs, p);
      assert r[0] == PlaceAttr(attrs[0], p) && r[1..] == PlaceAttrs(attrs[1..], q);
      assert AttrsEnd(p, r) == AttrsEnd(q, r[1..]);
    }
  }

  lemma DistinctAlike(xs: seq<Attribute>, ys: seq<Attribute>)
    requires AttrsAlike(xs, ys) && DistinctAttrs(ys)
    ensures DistinctAttrs(xs)
  {
  }

  lemma StartPieces(input: string, p: nat, n: string, w: string)
    requires Holds(input, p, "<" + n + w + ">")
    ensures
      var q := p + 1 + |n|;
      && CharAt(input, p, '<') && Holds(input, p + 1, n) && Holds(input, q, w) && CharAt(input, q + |w|, '>')
  {
    hide Holds, CharAt;
    assert "<" + n + w + ">" == "<" + (n + (w + ">"));
    HoldsTwo(input, p, "<", n + (w + ">"));
    HoldsTwo(input, p + 1, n, w + ">");
    HoldsTwo(input, p + 1 + |n|, w, ">");
    HoldsChar(input, p, '<');
    HoldsChar(input, p + 1 + |n| + |w|, '>');
  }

  lemma EndPieces(input: string, p: nat, n: string)
    requires Holds(input, p, "</" + n + ">")
    ensures CharAt(input, p, '<') && CharAt(input, p + 1, '/') && Holds(input, p + 2, n) && CharAt(input, p + 2 + |n|, '>')
  {
    hide Holds, CharAt;
    assert "</" + n + ">" == "<" + ("/" + (n + ">"));
    HoldsTwo(input, p, "<", "/" + (n + ">"));
    HoldsTwo(input, p + 1, "/", n + ">");
    HoldsTwo(input, p + 2, n, ">");
    HoldsChar(input, p, '<');
    HoldsChar(input, p + 1, '/');
    HoldsChar(input, p + 2 + |n|, '>');
  }

  lemma StartWritten(input: string, p: nat, t: Token)
    requires t.StartTag? && Holds(input, p, WriteToken(t)) && WritableToken(t)
    ensures Spelled(input, Place(t, p)) && WriteToken(t) != []
  {
    hide Holds, CharAt, Slice, WriteAttrs, PlaceAttrs, AttrsSpelled, IsName, IsQuoted, Blank, DistinctAttrs, AttrsAlike;
    var w, q := WriteAttrs(t.attrs), p + 1 + |t.name|;
    StartPieces(input, p, t.name, w);
    HoldsHere(input, p + 1, t.name);
    HoldsHere(input, q, w);
    AttrsWritten(input, q, t.attrs);
    PlacedAttrsAlike(t.attrs, q);
    DistinctAlike(PlaceAttrs(t.attrs, q), t.attrs);
  }

  lemma EndWritten(input: string, p: nat, t: Token)
    requires t.EndTag? && Holds(input, p, WriteToken(t)) && WritableToken(t)
    ensures Spelled(input, Place(t, p)) && WriteToken(t) != []
  {
    hide Holds, CharAt, Slice, IsName, Blank;
    EndPieces(input, p, t.name);
    HoldsHere(input, p + 2, t.name);
  }

  lemma TokenWritten(input: string, p: nat, t: Token)
    requires Holds(input, p, WriteToken(t)) && WritableToken(t)
    ensures Spelled(input, Place(t, p)) && WriteToken(t) != []
  {
    if t.StartTag? { StartWritten(input, p, t); }
    else if t.EndTag? { EndWritten(input, p, t); }
    else { HoldsHere(input, p, t.value); }
    hide *;
  }

  lemma {:induction false} AllWritten(input: string, p: nat, toks: seq<Token>)
    requires Holds(input, p, WriteAll(toks)) && p + |WriteAll(toks)| == |input| && Writable(toks)
    ensures AllSpelled(input, p, PlaceAll(toks, p))
    decreases toks
  {
    hide WriteToken, Spelled, WritableToken;
    if toks != [] {
      var t, q := toks[0], p + |WriteToken(toks[0])|;
      HoldsTwo(input, p, WriteToken(t), WriteAll(toks[1..]));
      TokenWritten(input, p, t);
      assert Writable(toks[1..]) by { assert forall i :: 0 <= i < |toks[1..]| ==> toks[1..][i] == toks[i + 1]; }
      AllWritten(input, q, toks[1..]);
      var r := PlaceAll(toks, p);
      assert r[0] == Place(t, p) && r[1..] == PlaceAll(toks[1..], q);
      assert Place(t, p).span == Between(p, q);
      if |toks| > 1 { assert r[1] == Place(toks[1], q); }
    }
  }

  /** Tokens written down and tokenized come back, with the spans of where they were
      written. */
  lemma WriteThenTokenize(toks: seq<Token>)
    requires Writable(toks) && |toks| <= 64
    ensures Tokenize(WriteAll(toks)) == Right((PlaceAll(toks, 0), |WriteAll(toks)|))
    ensures forall i :: 0 <= i < |toks| ==> Alike(PlaceAll(toks, 0)[i], toks[i])
  {
    var w := WriteAll(toks);
    assert w[0..0 + |w|] == w;
    AllWritten(w, 0, toks);
    hide AllSpelled, WriteAll, PlaceAll, Tokenize;
    TokenizeIff(w, PlaceAll(toks, 0));
    PlacedAlike(toks, 0);
  }
}

/** Trees from tokens, and a bounded search in them (XbrlCanary.idric). */
module XbrlTree {
  import opened XbrlTokens

  datatype Node =
    | Element(span: Span, name: string, attrs: seq<Attribute>, children: seq<Node>)
    | TextNode(span: Span, value: string)

  datatype Children = Children(nodes: seq<Node>, end: nat, after: seq<Token>)

  function ParseNode(depth: nat, toks: seq<Token>): (r: Result<(Node, seq<Token>)>)
    ensures r.Right? ==> |r.value.1| < |toks|
    decreases |toks|, 0
  {
    if depth == 0 then Left("tree depth bound exceeded")
    else if toks != [] && toks[0].StartTag? then
      var c :- ParseChildren(depth - 1, toks[0].name, [], toks[1..]);
      Right((Element(Between(toks[0].span.lower, c.end), toks[0].name, toks[0].attrs, c.nodes), c.after))
    else Left("expected element")
  }

  function ParseChildren(depth: nat, name: string, acc: seq<Node>, toks: seq<Token>): (r: Result<Children>)
    ensures r.Right? ==> |r.value.after| < |toks|
    decreases |toks|, 1
  {
    if toks == [] then Left("unclosed element")
    else match toks[0]
      case EndTag(span, closing, _) =>
        if name == closing then Right(Children(acc, span.upper, toks[1..])) else Left("mismatched close tag")
      case TextToken(span, v) => ParseChildren(depth, name, acc + [TextNode(span, v)], toks[1..])
      case StartTag(_, _, _, _) =>
        var r :- ParseNode(depth, toks);
        ParseChildren(depth, name, acc + [r.0], r.1)
  }

  predicate Blank(t: Token) { t.TextToken? && forall i :: 0 <= i < |t.value| ==> IsSpace(t.value[i]) }

  function DocumentSpace(toks: seq<Token>): seq<Token> {
    if toks != [] && Blank(toks[0]) then DocumentSpace(toks[1..]) else toks
  }

  function BuildTree(toks: seq<Token>): Result<Node> {
    var r :- ParseNode(8, DocumentSpace(toks));
    if DocumentSpace(r.1) == [] then Right(r.0) else Left("more than one root or trailing non-whitespace")
  }

  // ----- Well-bracketed token lists, by a stack -----

  /** Read tokens until every open element is closed, with at most `limit` open at a
      time; the tokens that are left. */
  function Close(limit: nat, open: seq<string>, toks: seq<Token>): (r: Result<seq<Token>>)
    decreases toks
  {
    if open == [] then Right(toks)
    else if toks == [] then Left("open")
    else match toks[0]
      case EndTag(_, n, _) => if n == open[0] then Close(limit, open[1..], toks[1..]) else Left("mismatch")
      case TextToken(_, _) => Close(limit, open, toks[1..])
      case StartTag(_, n, _, _) =>
        if |open| < limit then Close(limit, [n] + open, toks[1..]) else Left("too deep")
  }

  /** One element, closed by the last token, nested at most `limit` deep. */
  predicate OneElement(limit: nat, toks: seq<Token>) {
    toks != [] && toks[0].StartTag? && limit > 0 && Close(limit, [toks[0].name], toks[1..]) == Right([])
  }

  /** Without whitespace text at the end. */
  function DropBlankEnd(toks: seq<Token>): seq<Token> {
    if toks != [] && Blank(toks[|toks| - 1]) then DropBlankEnd(toks[..|toks| - 1]) else toks
  }

  function Trim(toks: seq<Token>): seq<Token> { DropBlankEnd(DocumentSpace(toks)) }

  /** Parsing the children of an element is closing it with the stack. */
  lemma {:induction false} ParseIsClose(depth: nat, name: string, acc: seq<Node>, toks: seq<Token>, limit: nat, open: seq<string>)
    requires limit == depth + 1 + |open|
    ensures
      var p := ParseChildren(depth, name, acc, toks);
      var c := Close(limit, [name] + open, toks);
      if p.Right? then c == Close(limit, open, p.value.after) else c.Left?
    decreases |toks|, 1
  {
    if toks != [] {
      var all := [name] + open;
      assert all[1..] == open;
      match toks[0]
      case EndTag(_, _, _) =>
      case TextToken(span, v) => ParseIsClose(depth, name, acc + [TextNode(span, v)], toks[1..], limit, open);
      case StartTag(_, n, _, _) =>
        if depth > 0 {
          ParseIsClose(depth - 1, n, [], toks[1..], limit, all);
          var r := ParseNode(depth, toks);
          if r.Right? { ParseIsClose(depth, name, acc + [r.value.0], r.value.1, limit, open); }
        }
    }
  }

  // ----- Trimming -----

  predicate AllBlank(toks: seq<Token>) { forall i :: 0 <= i < |toks| ==> Blank(toks[i]) }

  lemma {:induction false} SpaceAllBlank(toks: seq<Token>)
    ensures DocumentSpace(toks) == [] <==> AllBlank(toks)
  {
    if toks != [] && Blank(toks[0]) {
      SpaceAllBlank(toks[1..]);
      assert toks == [toks[0]] + toks[1..];
    }
  }

  lemma {:induction false} DropBlankSplit(toks: seq<Token>) returns (blanks: seq<Token>)
    ensures toks == DropBlankEnd(toks) + blanks && AllBlank(blanks)
    ensures var d := DropBlankEnd(toks); d != [] ==> !Blank(d[|d| - 1])
    decreases |toks|
  {
    hide Blank;
    if toks != [] && Blank(toks[|toks| - 1]) {
      var init, last := toks[..|toks| - 1], toks[|toks| - 1];
      var bs := DropBlankSplit(init);
      blanks := bs + [last];
      assert toks == init + [last];
      assert (DropBlankEnd(init) + bs) + [last] == DropBlankEnd(init) + blanks;
    } else {
      blanks := [];
    }
  }

  lemma {:induction false} DropBlankAppend(toks: seq<Token>, blanks: seq<Token>)
    requires AllBlank(blanks) && toks != [] && !Blank(toks[|toks| - 1])
    ensures DropBlankEnd(toks + blanks) == toks
    decreases |blanks|
  {
    if blanks == [] {
      assert toks + blanks == toks;
    } else {
      var all := toks + blanks;
      assert all[..|all| - 1] == toks + blanks[..|blanks| - 1];
      DropBlankAppend(toks, blanks[..|blanks| - 1]);
    }
  }

  /** Closing reads a prefix that ends in an end tag, whatever follows it. */
  lemma {:induction false} CloseSplit(limit: nat, open: seq<string>, toks: seq<Token>) returns (pre: seq<Token>)
    requires open != [] && Close(limit, open, toks).Right?
    ensures toks == pre + Close(limit, open, toks).value && pre != [] && pre[|pre| - 1].EndTag?
    ensures Close(limit, open, pre) == Right([])
    decreases toks
  {
    if toks[0].EndTag? && |open| == 1 {
      pre := [toks[0]];
      assert open[1..] == [] && pre[1..] == [];
      assert toks == pre + toks[1..];
    } else {
      var open' := if toks[0].EndTag? then open[1..] else if toks[0].StartTag? then [toks[0].name] + open else open;
      var p := CloseSplit(limit, open', toks[1..]);
      pre := [toks[0]] + p;
      assert pre[1..] == p;
      assert toks == [toks[0]] + toks[1..];
    }
  }

  lemma {:induction false} CloseAppend(limit: nat, open: seq<string>, toks: seq<Token>, more: seq<Token>)
    requires Close(limit, open, toks).Right?
    ensures Close(limit, open, toks + more) == Right(Close(limit, open, toks).value + more)
    decreases toks
  {
    if open != [] {
      assert (toks + more)[1..] == toks[1..] + more;
      var open' := if toks[0].EndTag? then open[1..] else if toks[0].StartTag? then [toks[0].name] + open else open;
      CloseAppend(limit, open', toks[1..], more);
    }
  }

  lemma BuildTreeOnly(toks: seq<Token>)
    requires BuildTree(toks).Right?
    ensures OneElement(8, Trim(toks))
  {
    hide ParseChildren, Close, Blank;
    var ds := DocumentSpace(toks);
    var n := ds[0].name;
    ParseIsClose(7, n, [], ds[1..], 8, []);
    assert [n] + [] == [n];
    var after := ParseChildren(7, n, [], ds[1..]).value.after;
    NothingOpen(8, after);
    SpaceAllBlank(after);
    var pre := CloseSplit(8, [n], ds[1..]);
    var el := [ds[0]] + pre;
    assert ds == el + after && el[1..] == pre;
    NotBlank(el);
    DropBlankAppend(el, after);
  }

  lemma NothingOpen(limit: nat, toks: seq<Token>)
    ensures Close(limit, [], toks) == Right(toks)
  {
  }

  lemma NotBlank(toks: seq<Token>)
    requires toks != [] && toks[|toks| - 1].EndTag?
    ensures !Blank(toks[|toks| - 1])
  {
  }

  lemma BuildTreeIf(toks: seq<Token>)
    requires OneElement(8, Trim(toks))
    ensures BuildTree(toks).Right?
  {
    hide ParseChildren, Close, Blank;
    var ds, el := DocumentSpace(toks), Trim(toks);
    var blanks := DropBlankSplit(ds);
    assert el[0] == ds[0] && ds[1..] == el[1..] + blanks;
    var n := ds[0].name;
    CloseAppend(8, [n], el[1..], blanks);
    assert [] + blanks == blanks;
    ParseIsClose(7, n, [], ds[1..], 8, []);
    assert [n] + [] == [n];
    var p := ParseChildren(7, n, [], ds[1..]);
    assert p.Right?;
    NothingOpen(8, p.value.after);
    SpaceAllBlank(p.value.after);
  }

  /** A tree is built exactly when the tokens, trimmed of outer whitespace text, are
      one element nested at most eight deep. */
  lemma BuildTreeIff(toks: seq<Token>)
    ensures BuildTree(toks).Right? <==> OneElement(8, Trim(toks))
  {
    hide BuildTree, OneElement, Trim;
    if BuildTree(toks).Right? { BuildTreeOnly(toks); }
    if OneElement(8, Trim(toks)) { BuildTreeIf(toks); }
  }
}

/** Building a tree inverts flattening one. */
module XbrlTreeInverts {
  import opened XbrlTokens
  import opened XbrlTree

  /** A tree, and its tokens, without spans. */
  datatype Bare = El(name: string, attrs: seq<Attribute>, kids: seq<Bare>) | Tx(value: string)

  datatype Shape = Open(name: string, attrs: seq<Attribute>) | Shut(name: string) | Text(value: string)

  function ShapeOf(t: Token): Shape {
    match t
    case StartTag(_, n, _, attrs) => Open(n, attrs)
    case EndTag(_, n, _) => Shut(n)
    case TextToken(_, v) => Text(v)
  }

  function Shapes(toks: seq<Token>): (r: seq<Shape>)
    ensures |r| == |toks|
  {
    seq(|toks|, i requires 0 <= i < |toks| => ShapeOf(toks[i]))
  }

  function Strip(n: Node): Bare
    decreases n
  {
    match n
    case Element(_, name, attrs, children) =>
      El(name, attrs, seq(|children|, i requires 0 <= i < |children| => Strip(children[i])))
    case TextNode(_, v) => Tx(v)
  }

  function StripAll(ns: seq<Node>): (r: seq<Bare>)
    ensures |r| == |ns|
  {
    seq(|ns|, i requires 0 <= i < |ns| => Strip(ns[i]))
  }

  function Flatten(b: Bare): seq<Shape>
    decreases b, 0
  {
    match b
    case El(n, attrs, kids) => [Open(n, attrs)] + FlattenAll(kids) + [Shut(n)]
    case Tx(v) => [Text(v)]
  }

  function FlattenAll(bs: seq<Bare>): seq<Shape>
    decreases bs, 1
  {
    if bs == [] then [] else Flatten(bs[0]) + FlattenAll(bs[1..])
  }

  function Height(b: Bare): nat
    decreases b, 0
  {
    match b
    case El(_, _, kids) => 1 + HeightAll(kids)
    case Tx(_) => 0
  }

  function HeightAll(bs: seq<Bare>): nat
    decreases bs, 1
  {
    if bs == [] then 0
    else
      var h, rest := Height(bs[0]), HeightAll(bs[1..]);
      if h > rest then h else rest
  }

  lemma ShapesRest(toks: seq<Token>)
    requires toks != []
    ensures Shapes(toks)[1..] == Shapes(toks[1..]) && Shapes(toks)[0] == ShapeOf(toks[0])
  {
  }

  lemma StripAppend(ns: seq<Node>, n: Node)
    ensures StripAll(ns + [n]) == StripAll(ns) + [Strip(n)]
  {
  }

  // ----- Every tree parsed flattens to the tokens it was parsed from -----

  lemma {:induction false} FlattenAppend(bs: seq<Bare>, cs: seq<Bare>)
    ensures FlattenAll(bs + cs) == FlattenAll(bs) + FlattenAll(cs)
    ensures HeightAll(bs + cs) == if HeightAll(bs) > HeightAll(cs) then HeightAll(bs) else HeightAll(cs)
    decreases bs
  {
    if bs == [] {
      assert bs + cs == cs;
    } else {
      FlattenAppend(bs[1..], cs);
      assert (bs + cs)[1..] == bs[1..] + cs;
      SeqAssoc(Flatten(bs[0]), FlattenAll(bs[1..]), FlattenAll(cs));
    }
  }

  lemma SeqAssoc(a: seq<Shape>, b: seq<Shape>, c: seq<Shape>)
    ensures (a + b) + c == a + (b + c)
  {
  }

  lemma OneFlat(b: Bare)
    ensures FlattenAll([b]) == Flatten(b) && HeightAll([b]) == Height(b)
  {
    assert [b][1..] == [];
  }

  /** The parsed children continue `acc`. */
  lemma {:induction false} ChildrenFlatten(depth: nat, name: string, acc: seq<Node>, toks: seq<Token>)
    requires ParseChildren(depth, name, acc, toks).Right? && HeightAll(StripAll(acc)) <= depth
    ensures
      var c := ParseChildren(depth, name, acc, toks).value;
      && FlattenAll(StripAll(c.nodes)) + [Shut(name)] + Shapes(c.after) == FlattenAll(StripAll(acc)) + Shapes(toks)
      && HeightAll(StripAll(c.nodes)) <= depth
    decreases |toks|, 1
  {
    ShapesRest(toks);
    assert Shapes(toks) == [ShapeOf(toks[0])] + Shapes(toks[1..]);
    var done := FlattenAll(StripAll(acc));
    match toks[0]
    case EndTag(_, _, _) => SeqAssoc(done, [Shut(name)], Shapes(toks[1..]));
    case TextToken(span, v) =>
      var n := TextNode(span, v);
      StripAppend(acc, n);
      FlattenAppend(StripAll(acc), [Strip(n)]);
      OneFlat(Strip(n));
      ChildrenFlatten(depth, name, acc + [n], toks[1..]);
      SeqAssoc(done, [Text(v)], Shapes(toks[1..]));
    case StartTag(_, _, _, _) =>
      var r := ParseNode(depth, toks).value;
      NodeFlatten(depth, toks);
      StripAppend(acc, r.0);
      FlattenAppend(StripAll(acc), [Strip(r.0)]);
      OneFlat(Strip(r.0));
      ChildrenFlatten(depth, name, acc + [r.0], r.1);
      SeqAssoc(done, Flatten(Strip(r.0)), Shapes(r.1));
  }

  lemma {:induction false} NodeFlatten(depth: nat, toks: seq<Token>)
    requires ParseNode(depth, toks).Right?
    ensures
      var r := ParseNode(depth, toks).value;
      Flatten(Strip(r.0)) + Shapes(r.1) == Shapes(toks) && Height(Strip(r.0)) <= depth
    decreases |toks|, 0
  {
    var c := ParseChildren(depth - 1, toks[0].name, [], toks[1..]).value;
    var r := ParseNode(depth, toks).value;
    assert StripAll([]) == [];
    ChildrenFlatten(depth - 1, toks[0].name, [], toks[1..]);
    ShapesRest(toks);
    var kids := FlattenAll(StripAll(c.nodes));
    assert Strip(r.0).kids == StripAll(c.nodes);
    assert Flatten(Strip(r.0)) == [ShapeOf(toks[0])] + kids + [Shut(toks[0].name)];
    assert [] + Shapes(toks[1..]) == Shapes(toks[1..]);
    FourParts([ShapeOf(toks[0])], kids, [Shut(toks[0].name)], Shapes(c.after));
    assert Shapes(toks) == [ShapeOf(toks[0])] + Shapes(toks[1..]);
  }

  lemma FourParts(a: seq<Shape>, b: seq<Shape>, c: seq<Shape>, d: seq<Shape>)
    ensures (a + b + c) + d == a + ((b + c) + d)
  {
  }

  /** Flattening the tree that is built returns the trimmed tokens, up to spans. */
  lemma BuildTreeFlattens(toks: seq<Token>)
    requires BuildTree(toks).Right?
    ensures
      var root := BuildTree(toks).value;
      root.Element? && Flatten(Strip(root)) == Shapes(Trim(toks)) && Height(Strip(root)) <= 8
  {
    var ds := DocumentSpace(toks);
    var r := ParseNode(8, ds).value;
    NodeFlatten(8, ds);
    SpaceAllBlank(r.1);
    var el := ds[..|ds| - |r.1|];
    RestIsSuffix(8, ds);
    assert ds == el + r.1;
    var shape := Flatten(Strip(r.0));
    assert shape == Shapes(el) by {
      assert Shapes(ds) == Shapes(el) + Shapes(r.1);
      assert |shape| == |el|;
      assert shape == (shape + Shapes(r.1))[..|el|];
      assert Shapes(el) == (Shapes(el) + Shapes(r.1))[..|el|];
    }
    assert shape[|shape| - 1] == Shut(r.0.name);
    assert ShapeOf(el[|el| - 1]).Shut?;
    DropBlankAppend(el, r.1);
  }

  lemma {:induction false} RestIsSuffix(depth: nat, toks: seq<Token>)
    requires ParseNode(depth, toks).Right?
    ensures
      var rest := ParseNode(depth, toks).value.1;
      rest == toks[|toks| - |rest|..]
    decreases |toks|, 0
  {
    ChildrenSuffix(depth - 1, toks[0].name, [], toks[1..]);
  }

  lemma {:induction false} ChildrenSuffix(depth: nat, name: string, acc: seq<Node>, toks: seq<Token>)
    requires ParseChildren(depth, name, acc, toks).Right?
    ensures
      var rest := ParseChildren(depth, name, acc, toks).value.after;
      rest == toks[|toks| - |rest|..]
    decreases |toks|, 1
  {
    match toks[0]
    case EndTag(_, _, _) =>
    case TextToken(span, v) => ChildrenSuffix(depth, name, acc + [TextNode(span, v)], toks[1..]);
    case StartTag(_, _, _, _) =>
      var r := ParseNode(depth, toks).value;
      RestIsSuffix(depth, toks);
      ChildrenSuffix(depth, name, acc + [r.0], r.1);
  }

  // ----- Every tree within the bound is parsed back from its tokens -----

  lemma {:induction false} ChildrenParse(depth: nat, name: string, acc: seq<Node>, kids: seq<Bare>, toks: seq<Token>, rest: seq<Shape>)
    requires HeightAll(kids) <= depth && Shapes(toks) == FlattenAll(kids) + ([Shut(name)] + rest)
    ensures
      var r := ParseChildren(depth, name, acc, toks);
      r.Right? && StripAll(r.value.nodes) == StripAll(acc) + kids && Shapes(r.value.after) == rest
    decreases kids, 1
  {
    if kids == [] {
      assert Shapes(toks) == [Shut(name)] + rest;
      ShapesRest(toks);
      assert ([Shut(name)] + rest)[1..] == rest;
      assert StripAll(acc) + kids == StripAll(acc);
    } else {
      var more := FlattenAll(kids[1..]) + ([Shut(name)] + rest);
      SeqAssoc(Flatten(kids[0]), FlattenAll(kids[1..]), [Shut(name)] + rest);
      var n, toks' := FirstParse(depth, kids[0], toks, more);
      StripAppend(acc, n);
      assert kids == [kids[0]] + kids[1..];
      ChildrenParse(depth, name, acc + [n], kids[1..], toks', rest);
      assert (StripAll(acc) + [kids[0]]) + kids[1..] == StripAll(acc) + kids;
      assert ParseChildren(depth, name, acc, toks) == ParseChildren(depth, name, acc + [n], toks');
    }
  }

  /** The first child, and the tokens after it. */
  lemma {:induction false} FirstParse(depth: nat, b: Bare, toks: seq<Token>, rest: seq<Shape>) returns (n: Node, toks': seq<Token>)
    requires Height(b) <= depth && Shapes(toks) == Flatten(b) + rest
    ensures Strip(n) == b && Shapes(toks') == rest && toks != []
    ensures if b.El? then ParseNode(depth, toks) == Right((n, toks')) && toks[0].StartTag?
            else toks[0].TextToken? && n == TextNode(toks[0].span, toks[0].value) && toks' == toks[1..]
    decreases b, 0
  {
    ShapesRest(toks);
    assert toks != [] && Shapes(toks)[0] == Flatten(b)[0];
    if b.Tx? {
      n, toks' := TextNode(toks[0].span, toks[0].value), toks[1..];
      assert (Flatten(b) + rest)[1..] == rest;
    } else {
      var inner := FlattenAll(b.kids) + ([Shut(b.name)] + rest);
      ElementTail(b, rest);
      ChildrenParse(depth - 1, b.name, [], b.kids, toks[1..], rest);
      var c := ParseChildren(depth - 1, toks[0].name, [], toks[1..]).value;
      n, toks' := Element(Between(toks[0].span.lower, c.end), toks[0].name, toks[0].attrs, c.nodes), c.after;
      assert StripAll([]) + b.kids == b.kids;
      assert Strip(n).kids == StripAll(c.nodes);
    }
  }

  lemma ElementTail(b: Bare, rest: seq<Shape>)
    requires b.El?
    ensures Flatten(b)[0] == Open(b.name, b.attrs)
    ensures (Flatten(b) + rest)[1..] == FlattenAll(b.kids) + ([Shut(b.name)] + rest)
  {
  }

  /** Every element of height at most eight is built from any tokens it flattens to. */
  lemma BuildTreeInverts(b: Bare, toks: seq<Token>)
    requires b.El? && Height(b) <= 8 && Shapes(toks) == Flatten(b)
    ensures BuildTree(toks).Right? && Strip(BuildTree(toks).value) == b
  {
    assert Flatten(b) + [] == Flatten(b);
    var n, rest := FirstParse(8, b, toks, []);
    assert rest == [];
    assert DocumentSpace(toks) == toks;
  }

  // ----- Spans -----

  /** Nodes side by side from `lo` to `hi`, each well nested. */
  ghost predicate Chain(ns: seq<Node>, lo: nat, hi: nat)
    decreases ns, 1
  {
    if ns == [] then lo == hi
    else ns[0].span.lower == lo && lo < ns[0].span.upper && Nested(ns[0]) && Chain(ns[1..], ns[0].span.upper, hi)
  }

  /** Children are ordered and strictly inside their parent. */
  ghost predicate Nested(n: Node)
    decreases n, 0
  {
    n.Element? ==> exists lo, hi :: n.span.lower < lo <= hi < n.span.upper && Chain(n.children, lo, hi)
  }

  lemma {:induction false} ChainAppend(ns: seq<Node>, lo: nat, hi: nat, n: Node)
    requires Chain(ns, lo, hi) && n.span.lower == hi < n.span.upper && Nested(n)
    ensures Chain(ns + [n], lo, n.span.upper) && lo <= hi
    decreases ns
  {
    if ns == [] {
      assert (ns + [n])[1..] == [];
    } else {
      ChainAppend(ns[1..], ns[0].span.upper, hi, n);
      assert (ns + [n])[1..] == ns[1..] + [n];
    }
  }

  lemma {:induction false} ChainOrdered(ns: seq<Node>, lo: nat, hi: nat)
    requires Chain(ns, lo, hi)
    ensures lo <= hi
  {
    if ns != [] { ChainOrdered(ns[1..], ns[0].span.upper, hi); }
  }

  lemma {:induction false} ChildrenChain(depth: nat, name: string, acc: seq<Node>, toks: seq<Token>, lo: nat, mid: nat, hi: nat)
    requires ParseChildren(depth, name, acc, toks).Right? && Chain(acc, lo, mid) && Tiles(toks, mid, hi)
    ensures
      var c := ParseChildren(depth, name, acc, toks).value;
      Tiles(c.after, c.end, hi) && exists e :: lo <= e < c.end && Chain(c.nodes, lo, e)
    decreases |toks|, 1
  {
    match toks[0]
    case EndTag(_, _, _) => ChainOrdered(acc, lo, mid);
    case TextToken(span, v) =>
      ChainAppend(acc, lo, mid, TextNode(span, v));
      ChildrenChain(depth, name, acc + [TextNode(span, v)], toks[1..], lo, span.upper, hi);
    case StartTag(_, _, _, _) =>
      var r := ParseNode(depth, toks).value;
      NodeNested(depth, toks, mid, hi);
      ChainAppend(acc, lo, mid, r.0);
      ChildrenChain(depth, name, acc + [r.0], r.1, lo, r.0.span.upper, hi);
  }

  lemma {:induction false} NodeNested(depth: nat, toks: seq<Token>, lo: nat, hi: nat)
    requires ParseNode(depth, toks).Right? && Tiles(toks, lo, hi)
    ensures
      var r := ParseNode(depth, toks).value;
      Nested(r.0) && r.0.span.lower == lo < r.0.span.upper && Tiles(r.1, r.0.span.upper, hi)
    decreases |toks|, 0
  {
    ChildrenChain(depth - 1, toks[0].name, [], toks[1..], toks[0].span.upper, toks[0].span.upper, hi);
  }

  lemma {:induction false} SpaceTiles(toks: seq<Token>, lo: nat, hi: nat) returns (mid: nat)
    requires Tiles(toks, lo, hi)
    ensures Tiles(DocumentSpace(toks), mid, hi)
    decreases toks
  {
    if toks != [] && Blank(toks[0]) { mid := SpaceTiles(toks[1..], toks[0].span.upper, hi); } else { mid := lo; }
  }

  /** In the tree built from tokens that tile an input, child spans are ordered and
      nested in their parent's. */
  lemma BuildTreeNested(toks: seq<Token>, n: nat)
    requires Tiles(toks, 0, n) && BuildTree(toks).Right?
    ensures Nested(BuildTree(toks).value)
  {
    var lo := SpaceTiles(toks, 0, n);
    NodeNested(8, DocumentSpace(toks), lo, n);
  }
}

/** The bounded search visits elements in preorder. */
module XbrlFind {
  import opened XbrlTokens
  import opened XbrlTree

  datatype Found = Nothing | Just(path: seq<nat>, node: Node)

  function FindBounded(depth: nat, wanted: string, path: seq<nat>, n: Node): Found
    decreases n, 0
  {
    match n
    case Element(_, name, _, children) =>
      if name == wanted then Just(path, n)
      else if depth == 0 then Nothing
      else FindChildren(depth - 1, wanted, path, 0, children)
    case TextNode(_, _) => Nothing
  }

  /** The children from number `i` on. */
  function FindChildren(depth: nat, wanted: string, path: seq<nat>, i: nat, ns: seq<Node>): Found
    decreases ns, 1
  {
    if ns == [] then Nothing
    else
      var r := FindBounded(depth, wanted, path + [i], ns[0]);
      if r.Just? then r else FindChildren(depth, wanted, path, i + 1, ns[1..])
  }

  /** All elements at most `depth` below `n`, with their paths, in preorder. */
  function Preorder(depth: nat, path: seq<nat>, n: Node): seq<(seq<nat>, Node)>
    decreases n, 0
  {
    match n
    case Element(_, _, _, children) =>
      [(path, n)] + if depth == 0 then [] else PreorderAll(depth - 1, path, 0, children)
    case TextNode(_, _) => []
  }

  function PreorderAll(depth: nat, path: seq<nat>, i: nat, ns: seq<Node>): seq<(seq<nat>, Node)>
    decreases ns, 1
  {
    if ns == [] then [] else Preorder(depth, path + [i], ns[0]) + PreorderAll(depth, path, i + 1, ns[1..])
  }

  function First(wanted: string, xs: seq<(seq<nat>, Node)>): Found {
    if xs == [] then Nothing
    else if xs[0].1.Element? && xs[0].1.name == wanted then Just(xs[0].0, xs[0].1)
    else First(wanted, xs[1..])
  }

  lemma {:induction false} FirstAppend(wanted: string, xs: seq<(seq<nat>, Node)>, ys: seq<(seq<nat>, Node)>)
    ensures First(wanted, xs + ys) == if First(wanted, xs).Just? then First(wanted, xs) else First(wanted, ys)
    decreases xs
  {
    if xs == [] { assert xs + ys == ys; } else {
      FirstAppend(wanted, xs[1..], ys);
      assert (xs + ys)[1..] == xs[1..] + ys;
    }
  }

  /** The search returns the first match in preorder. */
  lemma {:induction false} FindIsFirst(depth: nat, wanted: string, path: seq<nat>, n: Node)
    ensures FindBounded(depth, wanted, path, n) == First(wanted, Preorder(depth, path, n))
    decreases n, 0
  {
    if n.Element? {
      var rest := if depth == 0 then [] else PreorderAll(depth - 1, path, 0, n.children);
      assert ([(path, n)] + rest)[1..] == rest;
      if depth > 0 { FindAllIsFirst(depth - 1, wanted, path, 0, n.children); }
    }
  }

  lemma {:induction false} FindAllIsFirst(depth: nat, wanted: string, path: seq<nat>, i: nat, ns: seq<Node>)
    ensures FindChildren(depth, wanted, path, i, ns) == First(wanted, PreorderAll(depth, path, i, ns))
    decreases ns, 1
  {
    if ns != [] {
      FindIsFirst(depth, wanted, path + [i], ns[0]);
      FindAllIsFirst(depth, wanted, path, i + 1, ns[1..]);
      FirstAppend(wanted, Preorder(depth, path + [i], ns[0]), PreorderAll(depth, path, i + 1, ns[1..]));
    }
  }

  /** The node at a path below `n`. */
  function NodeAt(n: Node, path: seq<nat>): Found
    decreases path
  {
    if path == [] then Just([], n)
    else if n.Element? && path[0] < |n.children| then NodeAt(n.children[path[0]], path[1..])
    else Nothing
  }

  predicate Reaches(n: Node, path: seq<nat>, m: Node) { NodeAt(n, path).Just? && NodeAt(n, path).node == m && m.Element? }

  /** The list holds exactly the elements at paths of length at most `depth`. */
  lemma {:induction false} PreorderIff(depth: nat, path: seq<nat>, n: Node, q: seq<nat>, m: Node)
    ensures (path + q, m) in Preorder(depth, path, n) <==> |q| <= depth && Reaches(n, q, m)
    decreases n, 0
  {
    if n.Element? {
      var rest := if depth == 0 then [] else PreorderAll(depth - 1, path, 0, n.children);
      if q == [] {
        assert path + q == path;
        if depth > 0 { PreorderAllLonger(depth - 1, path, 0, n.children, m); }
      } else if depth > 0 {
        PreorderAllIff(depth - 1, path, 0, n.children, q, m);
        assert path + q != path;
      }
    } else if q == [] {
      assert path + q == path;
    }
  }

  lemma {:induction false} PreorderAllIff(depth: nat, path: seq<nat>, i: nat, ns: seq<Node>, q: seq<nat>, m: Node)
    requires q != []
    ensures (path + q, m) in PreorderAll(depth, path, i, ns) <==>
            i <= q[0] < i + |ns| && |q| - 1 <= depth && Reaches(ns[q[0] - i], q[1..], m)
    decreases ns, 1
  {
    if ns != [] {
      var x := (path + q, m);
      InEither(x, Preorder(depth, path + [i], ns[0]), PreorderAll(depth, path, i + 1, ns[1..]));
      PreorderAllIff(depth, path, i + 1, ns[1..], q, m);
      hide Preorder, Reaches;
      if q[0] == i {
        assert path + q == (path + [i]) + q[1..];
        PreorderIff(depth, path + [i], ns[0], q[1..], m);
      } else {
        PreorderElsewhere(depth, path + [i], ns[0], path + q, m);
        NotBelow(path, i, q);
      }
    }
  }

  lemma InEither<T>(x: T, xs: seq<T>, ys: seq<T>)
    ensures x in xs + ys <==> x in xs || x in ys
  {
  }

  lemma NotBelow(path: seq<nat>, i: nat, q: seq<nat>)
    requires q != [] && q[0] != i
    ensures !(path + [i] <= path + q)
  {
    assert (path + q)[|path|] == q[0] && (path + [i])[|path|] == i;
  }

  /** Every path listed below a node extends that node's path. */
  lemma {:induction false} PreorderElsewhere(depth: nat, path: seq<nat>, n: Node, p: seq<nat>, m: Node)
    ensures (p, m) in Preorder(depth, path, n) ==> path <= p
    decreases n, 0
  {
    if n.Element? && depth > 0 { PreorderAllElsewhere(depth - 1, path, 0, n.children, p, m); }
  }

  lemma {:induction false} PreorderAllElsewhere(depth: nat, path: seq<nat>, i: nat, ns: seq<Node>, p: seq<nat>, m: Node)
    ensures (p, m) in PreorderAll(depth, path, i, ns) ==> path < p && p[|path|] >= i
    decreases ns, 1
  {
    if ns != [] {
      PreorderElsewhere(depth, path + [i], ns[0], p, m);
      PreorderAllElsewhere(depth, path, i + 1, ns[1..], p, m);
    }
  }

  lemma PreorderAllLonger(depth: nat, path: seq<nat>, i: nat, ns: seq<Node>, m: Node)
    ensures (path, m) !in PreorderAll(depth, path, i, ns)
  {
    PreorderAllElsewhere(depth, path, i, ns, path, m);
  }

  // ----- Document order -----

  /** A path comes before those that extend it and those that part from it to a later
      child. */
  predicate Before(p: seq<nat>, q: seq<nat>)
    decreases |p|
  {
    q != [] && (p == [] || p[0] < q[0] || (p[0] == q[0] && Before(p[1..], q[1..])))
  }

  lemma {:induction false} BeforeBelow(p: seq<nat>, q: seq<nat>)
    requires p < q
    ensures Before(p, q)
    decreases |p|
  {
    if p != [] { BeforeBelow(p[1..], q[1..]); }
  }

  lemma {:induction false} BeforeApart(path: seq<nat>, p: seq<nat>, q: seq<nat>)
    requires path < p && path < q && p[|path|] < q[|path|]
    ensures Before(p, q)
    decreases |path|
  {
    if path != [] { BeforeApart(path[1..], p[1..], q[1..]); }
  }

  predicate InOrder(xs: seq<(seq<nat>, Node)>) { forall i, j :: 0 <= i < j < |xs| ==> Before(xs[i].0, xs[j].0) }

  lemma InOrderAppend(xs: seq<(seq<nat>, Node)>, ys: seq<(seq<nat>, Node)>)
    requires InOrder(xs) && InOrder(ys) && forall x, y :: x in xs && y in ys ==> Before(x.0, y.0)
    ensures InOrder(xs + ys)
  {
    hide Before;
    var zs := xs + ys;
    forall i, j | 0 <= i < j < |zs| ensures Before(zs[i].0, zs[j].0) {
      if i < |xs| && |xs| <= j { assert xs[i] in xs && ys[j - |xs|] in ys; }
      else if i >= |xs| { assert Before(ys[i - |xs|].0, ys[j - |xs|].0); }
    }
  }

  /** The list is in document order. */
  lemma {:induction false} PreorderInOrder(depth: nat, path: seq<nat>, n: Node)
    ensures InOrder(Preorder(depth, path, n))
    decreases n, 0
  {
    if n.Element? {
      var rest := if depth == 0 then [] else PreorderAll(depth - 1, path, 0, n.children);
      if depth > 0 {
        PreorderAllInOrder(depth - 1, path, 0, n.children);
        AllBelow(depth - 1, path, n.children);
      }
      hide PreorderAll, InOrder, Before;
      InOrderCons((path, n), rest);
    }
  }

  lemma AllBelow(depth: nat, path: seq<nat>, ns: seq<Node>)
    ensures forall y :: y in PreorderAll(depth, path, 0, ns) ==> Before(path, y.0)
  {
    forall y | y in PreorderAll(depth, path, 0, ns) ensures Before(path, y.0) {
      PreorderAllElsewhere(depth, path, 0, ns, y.0, y.1);
      BeforeBelow(path, y.0);
    }
  }

  lemma InOrderCons(x: (seq<nat>, Node), ys: seq<(seq<nat>, Node)>)
    requires InOrder(ys) && forall y :: y in ys ==> Before(x.0, y.0)
    ensures InOrder([x] + ys)
  {
    hide Before;
    InOrderAppend([x], ys);
  }

  lemma {:induction false} PreorderAllInOrder(depth: nat, path: seq<nat>, i: nat, ns: seq<Node>)
    ensures InOrder(PreorderAll(depth, path, i, ns))
    decreases ns, 1
  {
    if ns != [] {
      var first, rest := Preorder(depth, path + [i], ns[0]), PreorderAll(depth, path, i + 1, ns[1..]);
      PreorderInOrder(depth, path + [i], ns[0]);
      PreorderAllInOrder(depth, path, i + 1, ns[1..]);
      forall x, y | x in first && y in rest ensures Before(x.0, y.0) {
        PreorderElsewhere(depth, path + [i], ns[0], x.0, x.1);
        PreorderAllElsewhere(depth, path, i + 1, ns[1..], y.0, y.1);
        assert x.0[|path|] == (path + [i])[|path|] == i && path < path + [i];
        BeforeApart(path, x.0, y.0);
      }
      InOrderAppend(first, rest);
    }
  }

  lemma {:induction false} FirstNothing(wanted: string, xs: seq<(seq<nat>, Node)>)
    ensures First(wanted, xs).Nothing? <==> forall x :: x in xs && x.1.Element? ==> x.1.name != wanted
    ensures First(wanted, xs).Just? ==> (First(wanted, xs).path, First(wanted, xs).node) in xs &&
                                        First(wanted, xs).node.Element? && First(wanted, xs).node.name == wanted
    decreases xs
  {
    if xs != [] {
      FirstNothing(wanted, xs[1..]);
      assert xs == [xs[0]] + xs[1..];
    }
  }

  lemma {:induction false} FirstLeast(wanted: string, xs: seq<(seq<nat>, Node)>, x: (seq<nat>, Node))
    requires InOrder(xs) && x in xs && x.1.Element? && x.1.name == wanted
    ensures First(wanted, xs).Just? && (First(wanted, xs).path == x.0 || Before(First(wanted, xs).path, x.0))
    decreases xs
  {
    var i :| 0 <= i < |xs| && xs[i] == x;
    if !(xs[0].1.Element? && xs[0].1.name == wanted) {
      assert xs[1..][i - 1] == x;
      FirstLeast(wanted, xs[1..], x);
    } else if i > 0 {
      assert Before(xs[0].0, xs[i].0);
    }
  }

  /** A search from the root finds the element by that name that is first in document
      order among those at most `depth` down, and nothing only when there is none. */
  lemma FindBoundedIff(depth: nat, wanted: string, n: Node)
    ensures
      var r := FindBounded(depth, wanted, [], n);
      && (r.Just? ==> |r.path| <= depth && Reaches(n, r.path, r.node) && r.node.name == wanted)
      && (forall q, m :: |q| <= depth && Reaches(n, q, m) && m.name == wanted ==>
            r.Just? && (r.path == q || Before(r.path, q)))
  {
    var all := Preorder(depth, [], n);
    FindIsFirst(depth, wanted, [], n);
    FirstNothing(wanted, all);
    PreorderInOrder(depth, [], n);
    var r := FindBounded(depth, wanted, [], n);
    if r.Just? {
      assert [] + r.path == r.path;
      PreorderIff(depth, [], n, r.path, r.node);
    }
    forall q, m | |q| <= depth && Reaches(n, q, m) && m.name == wanted ensures r.Just? && (r.path == q || Before(r.path, q)) {
      assert [] + q == q;
      PreorderIff(depth, [], n, q, m);
      assert (q, m) in all;
      FirstLeast(wanted, all, (q, m));
    }
  }
}

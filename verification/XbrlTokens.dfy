/** The tokenizer of the XML canary (XbrlCanary.idric). */
module XbrlTokens {

  datatype Result<+T> = Left(msg: string) | Right(value: T) {
    predicate IsFailure() { Left? }
    function PropagateFailure<U>(): Result<U>
      requires IsFailure()
    {
      Left(msg)
    }
    function Extract(): T
      requires !IsFailure()
    {
      value
    }
  }

  datatype Span = Between(lower: nat, upper: nat)

  datatype Cursor = At(offset: nat, remaining: string)

  datatype Scan = Scanned(value: string, span: Span, after: Cursor)

  datatype ScanState = DataState | NameState | QuotedState
  datatype ByteClass = AngleOpen | Ampersand | DoubleQuote | NameByte | Delimiter | OtherByte
  datatype ScanAction = KeepByte | StopBefore | RejectByte

  predicate IsSpace(c: char) { c in [' ', '\t', '\r', '\n', '\U{c}', '\U{b}', '\U{a0}'] }

  predicate IsNameByte(c: char) {
    'a' <= c <= 'z' || 'A' <= c <= 'Z' || '0' <= c <= '9' || c in "_:.-"
  }

  /** The two classes by code. */
  lemma ClassCodes(c: char)
    ensures var i := c as int;
            && (IsSpace(c) <==> 9 <= i <= 13 || i == 32 || i == 160)
            && (IsNameByte(c) <==> i == 45 || i == 46 || 48 <= i <= 58 || 65 <= i <= 90 || i == 95 || 97 <= i <= 122)
  {
  }

  function ClassifyByte(c: char): ByteClass {
    if c == '<' then AngleOpen
    else if c == '&' then Ampersand
    else if c == '"' then DoubleQuote
    else if IsNameByte(c) then NameByte
    else if IsSpace(c) || c in "=/>" then Delimiter
    else OtherByte
  }

  function StateClassStep(s: ScanState, b: ByteClass): ScanAction {
    match (s, b)
    case (DataState, AngleOpen) => StopBefore
    case (DataState, Ampersand) => StopBefore
    case (DataState, _) => KeepByte
    case (NameState, NameByte) => KeepByte
    case (NameState, Delimiter) => StopBefore
    case (NameState, _) => RejectByte
    case (QuotedState, DoubleQuote) => StopBefore
    case (QuotedState, AngleOpen) => RejectByte
    case (QuotedState, Ampersand) => RejectByte
    case (QuotedState, _) => KeepByte
  }

  function Keeps(s: ScanState, c: char): bool { StateClassStep(s, ClassifyByte(c)) == KeepByte }

  /** `acc` holds the bytes kept so far, in order. */
  function ScanLoop(s: ScanState, start: nat, pos: nat, acc: string, chars: string): Result<Scan>
    decreases chars
  {
    if chars == [] then Right(Scanned(acc, Between(start, pos), At(pos, [])))
    else match StateClassStep(s, ClassifyByte(chars[0]))
      case KeepByte => ScanLoop(s, start, pos + 1, acc + [chars[0]], chars[1..])
      case StopBefore => Right(Scanned(acc, Between(start, pos), At(pos, chars)))
      case RejectByte => Left("unsupported byte")
  }

  function ScanRun(s: ScanState, cur: Cursor): Result<Scan> { ScanLoop(s, cur.offset, cur.offset, [], cur.remaining) }

  function SkipSpace(cur: Cursor): Cursor
    decreases cur.remaining
  {
    if cur.remaining != [] && IsSpace(cur.remaining[0])
    then SkipSpace(At(cur.offset + 1, cur.remaining[1..])) else cur
  }

  function Expect(wanted: char, cur: Cursor): Result<Cursor> {
    if cur.remaining == [] then Left("unexpected EOF")
    else if cur.remaining[0] == wanted then Right(At(cur.offset + 1, cur.remaining[1..]))
    else Left("expected " + [wanted])
  }

  function ReadName(cur: Cursor): Result<Scan> {
    var found :- ScanRun(NameState, cur);
    if found.value == [] then Left("empty name")
    else
      var c := found.value[0];
      if '0' <= c <= '9' || c == '-' || c == '.' then Left("unsupported name start") else Right(found)
  }

  datatype Attribute = Attr(name: string, nameSpan: Span, value: string, valueSpan: Span)

  datatype Token =
    | StartTag(span: Span, name: string, nameSpan: Span, attrs: seq<Attribute>)
    | EndTag(span: Span, name: string, nameSpan: Span)
    | TextToken(span: Span, value: string)

  function ReadAttribute(cur: Cursor): Result<(Attribute, Cursor)> {
    var key :- ReadName(cur);
    var eq :- Expect('=', SkipSpace(key.after));
    var quoted :- Expect('"', SkipSpace(eq));
    var val :- ScanRun(QuotedState, quoted);
    var next :- Expect('"', val.after);
    Right((Attr(key.value, key.span, val.value, val.span), next))
  }

  function ReadAttributes(fuel: nat, cur: Cursor, acc: seq<Attribute>): Result<(seq<Attribute>, Cursor)> {
    if cur.remaining != [] && cur.remaining[0] == '>' then Right((acc, At(cur.offset + 1, cur.remaining[1..])))
    else if fuel == 0 then Left("attribute bound exceeded")
    else if cur.remaining == [] then Left("unclosed start tag")
    else if !IsSpace(cur.remaining[0]) then Left("expected attribute separator or '>'")
    else
      var next := SkipSpace(cur);
      if next.remaining != [] && next.remaining[0] == '>' then Right((acc, At(next.offset + 1, next.remaining[1..])))
      else
        var r :- ReadAttribute(next);
        if exists a :: a in acc && a.name == r.0.name then Left("duplicate attribute")
        else ReadAttributes(fuel - 1, r.1, acc + [r.0])
  }

  function ReadTag(cur: Cursor): Result<(Token, Cursor)> {
    var inner :- Expect('<', cur);
    if inner.remaining != [] && inner.remaining[0] == '/' then
      var key :- ReadName(At(inner.offset + 1, inner.remaining[1..]));
      var next :- Expect('>', SkipSpace(key.after));
      Right((EndTag(Between(cur.offset, next.offset), key.value, key.span), next))
    else
      var key :- ReadName(inner);
      var r :- ReadAttributes(8, key.after, []);
      Right((StartTag(Between(cur.offset, r.1.offset), key.value, key.span, r.0), r.1))
  }

  function Go(fuel: nat, cur: Cursor, acc: seq<Token>): Result<(seq<Token>, nat)> {
    if cur.remaining == [] then Right((acc, cur.offset))
    else if fuel == 0 then Left("token/node bound exceeded")
    else if cur.remaining[0] == '<' then
      var r :- ReadTag(cur);
      Go(fuel - 1, r.1, acc + [r.0])
    else
      var found :- ScanRun(DataState, cur);
      if found.after.offset == cur.offset then Left("entities are outside this subset")
      else Go(fuel - 1, found.after, acc + [TextToken(found.span, found.value)])
  }

  function Tokenize(chars: string): Result<(seq<Token>, nat)> { Go(64, At(0, chars), []) }

  // ----- Cursors walk the input -----

  /** The cursor stands in the input. */
  predicate Stands(input: string, cur: Cursor) {
    cur.offset <= |input| && cur.remaining == input[cur.offset..]
  }

  predicate Inside(input: string, s: Span) { s.lower <= s.upper <= |input| }

  /** `value` is what the input holds at `s`. */
  predicate Slice(input: string, s: Span, value: string) { Inside(input, s) && value == input[s.lower..s.upper] }

  lemma Advance(input: string, cur: Cursor)
    requires Stands(input, cur) && cur.remaining != []
    ensures Stands(input, At(cur.offset + 1, cur.remaining[1..])) && cur.remaining[0] == input[cur.offset]
  {
  }

  lemma {:induction false} SkipStands(input: string, cur: Cursor)
    requires Stands(input, cur)
    ensures Stands(input, SkipSpace(cur)) && cur.offset <= SkipSpace(cur).offset
    decreases cur.remaining
  {
    if cur.remaining != [] && IsSpace(cur.remaining[0]) {
      Advance(input, cur);
      SkipStands(input, At(cur.offset + 1, cur.remaining[1..]));
    }
  }

  lemma ExpectStands(input: string, wanted: char, cur: Cursor)
    requires Stands(input, cur) && Expect(wanted, cur).Right?
    ensures Stands(input, Expect(wanted, cur).value) && Expect(wanted, cur).value.offset == cur.offset + 1
    ensures cur.offset < |input| && input[cur.offset] == wanted
  {
    Advance(input, cur);
  }

  /** A scan keeps the longest run of bytes its state allows, exactly as the input has
      them, and stops in front of one it does not keep. */
  lemma {:induction false} ScanStands(input: string, s: ScanState, start: nat, cur: Cursor, acc: string)
    requires Stands(input, cur) && start <= cur.offset && acc == input[start..cur.offset]
    requires forall i :: 0 <= i < |acc| ==> Keeps(s, acc[i])
    requires ScanLoop(s, start, cur.offset, acc, cur.remaining).Right?
    ensures
      var r := ScanLoop(s, start, cur.offset, acc, cur.remaining).value;
      && r.span == Between(start, r.after.offset) && Slice(input, r.span, r.value) && Stands(input, r.after)
      && cur.offset <= r.after.offset
      && (forall i :: 0 <= i < |r.value| ==> Keeps(s, r.value[i]))
      && (r.after.remaining != [] ==> StateClassStep(s, ClassifyByte(r.after.remaining[0])) == StopBefore)
    decreases cur.remaining
  {
    if cur.remaining != [] && Keeps(s, cur.remaining[0]) {
      Advance(input, cur);
      assert acc + [cur.remaining[0]] == input[start..cur.offset + 1];
      ScanStands(input, s, start, At(cur.offset + 1, cur.remaining[1..]), acc + [cur.remaining[0]]);
    }
  }

  lemma RunStands(input: string, s: ScanState, cur: Cursor)
    requires Stands(input, cur) && ScanRun(s, cur).Right?
    ensures
      var r := ScanRun(s, cur).value;
      && r.span == Between(cur.offset, r.after.offset) && Slice(input, r.span, r.value) && Stands(input, r.after)
      && cur.offset <= r.after.offset
      && (forall i :: 0 <= i < |r.value| ==> Keeps(s, r.value[i]))
      && (r.after.remaining != [] ==> StateClassStep(s, ClassifyByte(r.after.remaining[0])) == StopBefore)
  {
    ScanStands(input, s, cur.offset, cur, []);
  }

  lemma NameStands(input: string, cur: Cursor)
    requires Stands(input, cur) && ReadName(cur).Right?
    ensures
      var r := ReadName(cur).value;
      r.span == Between(cur.offset, r.after.offset) && Slice(input, r.span, r.value) && Stands(input, r.after) &&
      cur.offset < r.after.offset
  {
    RunStands(input, NameState, cur);
  }

  // ----- What each token says of the input -----

  predicate Within(s: Span, lo: nat, hi: nat) { lo <= s.lower <= s.upper <= hi }

  predicate AttrFaithful(input: string, lo: nat, hi: nat, a: Attribute) {
    Slice(input, a.nameSpan, a.name) && Slice(input, a.valueSpan, a.value) &&
    Within(a.nameSpan, lo, hi) && Within(a.valueSpan, lo, hi)
  }

  predicate AttrsFaithful(input: string, lo: nat, hi: nat, attrs: seq<Attribute>) {
    (forall i :: 0 <= i < |attrs| ==> AttrFaithful(input, lo, hi, attrs[i])) &&
    (forall i, j :: 0 <= i < j < |attrs| ==> attrs[i].name != attrs[j].name)
  }

  lemma AttributeStands(input: string, cur: Cursor)
    requires Stands(input, cur) && ReadAttribute(cur).Right?
    ensures
      var r := ReadAttribute(cur).value;
      Stands(input, r.1) && cur.offset < r.1.offset && AttrFaithful(input, cur.offset, r.1.offset, r.0)
  {
    NameStands(input, cur);
    var key := ReadName(cur).value;
    SkipStands(input, key.after);
    ExpectStands(input, '=', SkipSpace(key.after));
    var eq := Expect('=', SkipSpace(key.after)).value;
    SkipStands(input, eq);
    ExpectStands(input, '"', SkipSpace(eq));
    var quoted := Expect('"', SkipSpace(eq)).value;
    RunStands(input, QuotedState, quoted);
    var val := ScanRun(QuotedState, quoted).value;
    ExpectStands(input, '"', val.after);
  }

  lemma AttrsAppend(input: string, lo: nat, mid: nat, hi: nat, attrs: seq<Attribute>, a: Attribute)
    requires AttrsFaithful(input, lo, mid, attrs) && lo <= mid <= hi
    requires AttrFaithful(input, mid, hi, a) && !exists b :: b in attrs && b.name == a.name
    ensures AttrsFaithful(input, lo, hi, attrs + [a])
  {
    hide Slice;
    var all := attrs + [a];
    forall i | 0 <= i < |all| ensures AttrFaithful(input, lo, hi, all[i]) {
      if i < |attrs| { assert AttrFaithful(input, lo, mid, attrs[i]); }
    }
    forall i, j | 0 <= i < j < |all| ensures all[i].name != all[j].name { assert all[i] in attrs; }
  }

  lemma AttrsWiden(input: string, lo: nat, mid: nat, hi: nat, attrs: seq<Attribute>)
    requires AttrsFaithful(input, lo, mid, attrs) && mid <= hi
    ensures AttrsFaithful(input, lo, hi, attrs)
  {
    hide Slice;
    forall i | 0 <= i < |attrs| ensures AttrFaithful(input, lo, hi, attrs[i]) { assert AttrFaithful(input, lo, mid, attrs[i]); }
  }

  lemma {:induction false} AttributesStand(input: string, lo: nat, fuel: nat, cur: Cursor, acc: seq<Attribute>)
    requires Stands(input, cur) && lo <= cur.offset && AttrsFaithful(input, lo, cur.offset, acc)
    requires ReadAttributes(fuel, cur, acc).Right?
    ensures
      var r := ReadAttributes(fuel, cur, acc).value;
      && Stands(input, r.1) && cur.offset < r.1.offset && AttrsFaithful(input, lo, r.1.offset, r.0)
      && input[r.1.offset - 1] == '>'
    decreases fuel
  {
    hide AttrsFaithful, AttrFaithful, ReadAttribute, SkipSpace;
    if cur.remaining[0] == '>' {
      Advance(input, cur);
      AttrsWiden(input, lo, cur.offset, cur.offset + 1, acc);
    } else {
      var next := SkipSpace(cur);
      SkipStands(input, cur);
      if next.remaining != [] && next.remaining[0] == '>' {
        Advance(input, next);
        AttrsWiden(input, lo, cur.offset, next.offset + 1, acc);
      } else {
        AttributeStands(input, next);
        var r := ReadAttribute(next).value;
        AttrsWiden(input, lo, cur.offset, next.offset, acc);
        AttrsAppend(input, lo, next.offset, r.1.offset, acc, r.0);
        AttributesStand(input, lo, fuel - 1, r.1, acc + [r.0]);
      }
    }
  }

  /** A token covers its span of the input, and every part it names is what the input
      holds at that part's span. */
  predicate Faithful(input: string, t: Token) {
    && t.span.lower < t.span.upper <= |input|
    && match t
       case TextToken(s, v) => Slice(input, s, v) && '<' !in v && '&' !in v
       case StartTag(s, n, ns, attrs) =>
         input[s.lower] == '<' && input[s.upper - 1] == '>' && Slice(input, ns, n) && Within(ns, s.lower, s.upper) &&
         AttrsFaithful(input, s.lower, s.upper, attrs)
       case EndTag(s, n, ns) =>
         input[s.lower] == '<' && input[s.upper - 1] == '>' && Slice(input, ns, n) && Within(ns, s.lower, s.upper)
  }

  lemma TagStands(input: string, cur: Cursor)
    requires Stands(input, cur) && ReadTag(cur).Right?
    ensures
      var r := ReadTag(cur).value;
      Stands(input, r.1) && !r.0.TextToken? && r.0.span == Between(cur.offset, r.1.offset) && Faithful(input, r.0)
  {
    ExpectStands(input, '<', cur);
    var inner := Expect('<', cur).value;
    if inner.remaining != [] && inner.remaining[0] == '/' {
      Advance(input, inner);
      var slash := At(inner.offset + 1, inner.remaining[1..]);
      NameStands(input, slash);
      var key := ReadName(slash).value;
      SkipStands(input, key.after);
      ExpectStands(input, '>', SkipSpace(key.after));
    } else {
      NameStands(input, inner);
      var key := ReadName(inner).value;
      AttributesStand(input, cur.offset, 8, key.after, []);
    }
  }

  // ----- The tokens tile the input -----

  /** Consecutive spans from `lo` to `hi`, without gap, overlap or empty token. */
  predicate Tiles(toks: seq<Token>, lo: nat, hi: nat)
    decreases toks
  {
    if toks == [] then lo == hi
    else toks[0].span.lower == lo && lo < toks[0].span.upper && Tiles(toks[1..], toks[0].span.upper, hi)
  }

  predicate NoAdjacentText(toks: seq<Token>) {
    forall i :: 0 <= i < |toks| - 1 ==> !(toks[i].TextToken? && toks[i + 1].TextToken?)
  }

  predicate AllFaithful(input: string, toks: seq<Token>) { forall i :: 0 <= i < |toks| ==> Faithful(input, toks[i]) }

  lemma {:induction false} TilesAppend(toks: seq<Token>, lo: nat, hi: nat, t: Token)
    requires Tiles(toks, lo, hi) && t.span.lower == hi < t.span.upper
    ensures Tiles(toks + [t], lo, t.span.upper)
    decreases toks
  {
    if toks == [] {
      assert (toks + [t])[1..] == [];
    } else {
      TilesAppend(toks[1..], toks[0].span.upper, hi, t);
      assert (toks + [t])[1..] == toks[1..] + [t];
    }
  }

  /** What holds of the tokens read up to `pos`. */
  predicate Sound(input: string, toks: seq<Token>, pos: nat) {
    Tiles(toks, 0, pos) && AllFaithful(input, toks) && NoAdjacentText(toks)
  }

  predicate EndsInText(toks: seq<Token>) { toks != [] && toks[|toks| - 1].TextToken? }

  lemma SoundAppend(input: string, toks: seq<Token>, pos: nat, t: Token)
    requires Sound(input, toks, pos) && t.span.lower == pos && Faithful(input, t) && (t.TextToken? ==> !EndsInText(toks))
    ensures Sound(input, toks + [t], t.span.upper) && (EndsInText(toks + [t]) <==> t.TextToken?)
  {
    TilesAppend(toks, 0, pos, t);
    hide Faithful;
  }

  lemma {:induction false} GoTiles(input: string, fuel: nat, cur: Cursor, acc: seq<Token>)
    requires Stands(input, cur) && Sound(input, acc, cur.offset)
    requires EndsInText(acc) && cur.remaining != [] ==> cur.remaining[0] in "<&"
    requires Go(fuel, cur, acc).Right?
    ensures
      var r := Go(fuel, cur, acc).value;
      r.1 == |input| && Sound(input, r.0, |input|) && |r.0| <= |acc| + fuel
    decreases fuel
  {
    hide Sound, EndsInText, Faithful, ReadTag;
    if cur.remaining != [] {
      if cur.remaining[0] == '<' {
        TagStands(input, cur);
        var r := ReadTag(cur).value;
        SoundAppend(input, acc, cur.offset, r.0);
        GoTiles(input, fuel - 1, r.1, acc + [r.0]);
      } else {
        TextStands(input, cur);
        var found := ScanRun(DataState, cur).value;
        var t := TextToken(found.span, found.value);
        hide ScanRun;
        SoundAppend(input, acc, cur.offset, t);
        GoTiles(input, fuel - 1, found.after, acc + [t]);
      }
    }
  }

  lemma TextStands(input: string, cur: Cursor)
    requires Stands(input, cur) && cur.remaining != [] && ScanRun(DataState, cur).Right?
    requires ScanRun(DataState, cur).value.after.offset != cur.offset
    ensures
      var r := ScanRun(DataState, cur).value;
      && cur.remaining[0] != '&' && r.span == Between(cur.offset, r.after.offset) && Stands(input, r.after)
      && Faithful(input, TextToken(r.span, r.value)) && (r.after.remaining != [] ==> r.after.remaining[0] in "<&")
  {
    RunStands(input, DataState, cur);
    NotAtEntity(input, cur);
    var r := ScanRun(DataState, cur).value;
    forall i | 0 <= i < |r.value| ensures r.value[i] != '<' && r.value[i] != '&' { assert Keeps(DataState, r.value[i]); }
  }

  /** A scan for text that moved did not start at an entity. */
  lemma NotAtEntity(input: string, cur: Cursor)
    requires Stands(input, cur) && cur.remaining != [] && ScanRun(DataState, cur).Right?
    ensures cur.remaining[0] == '&' ==> ScanRun(DataState, cur).value.after.offset == cur.offset
  {
  }

  /** Tokenizing is lossless: the spans tile the whole input, every token says what
      the input holds, text holds no markup and is never split. */
  lemma TokenizeLossless(input: string)
    requires Tokenize(input).Right?
    ensures
      var r := Tokenize(input).value;
      r.1 == |input| && Sound(input, r.0, |input|) && |r.0| <= 64
  {
    GoTiles(input, 64, At(0, input), []);
  }

  // ----- Searching -----

  predicate IsPrefixOf(needle: string, chars: string) { |needle| <= |chars| && chars[..|needle|] == needle }

  function SearchFrom(needle: string, pos: nat, chars: string): seq<Span>
    decreases chars
  {
    if chars == [] then []
    else
      var later := SearchFrom(needle, pos + 1, chars[1..]);
      if IsPrefixOf(needle, chars) then [Between(pos, pos + |needle|)] + later else later
  }

  function SearchExact(needle: string, chars: string): seq<Span> {
    if needle == [] then [] else SearchFrom(needle, 0, chars)
  }

  /** The needle occurs in the input at `i`. */
  predicate OccursAt(needle: string, input: string, i: nat) {
    i + |needle| <= |input| && input[i..i + |needle|] == needle
  }

  /** All occurrences at or after `pos`, each once, in order. */
  ghost predicate Lists(needle: string, input: string, pos: nat, spans: seq<Span>) {
    && (forall k :: 0 <= k < |spans| ==> pos <= spans[k].lower && spans[k] == Between(spans[k].lower, spans[k].lower + |needle|)
                                         && OccursAt(needle, input, spans[k].lower))
    && (forall k, l :: 0 <= k < l < |spans| ==> spans[k].lower < spans[l].lower)
    && (forall i: nat :: pos <= i && OccursAt(needle, input, i) ==> Between(i, i + |needle|) in spans)
  }

  lemma {:induction false} SearchFromLists(needle: string, input: string, pos: nat)
    requires needle != [] && pos <= |input|
    ensures Lists(needle, input, pos, SearchFrom(needle, pos, input[pos..]))
    decreases |input| - pos
  {
    if pos < |input| {
      SearchFromLists(needle, input, pos + 1);
      assert input[pos..][1..] == input[pos + 1..];
      var later := SearchFrom(needle, pos + 1, input[pos + 1..]);
      PrefixOccurs(needle, input, pos);
      if OccursAt(needle, input, pos) { ListsCons(needle, input, pos, later); } else { ListsSkip(needle, input, pos, later); }
    }
  }

  lemma PrefixOccurs(needle: string, input: string, pos: nat)
    requires pos <= |input|
    ensures IsPrefixOf(needle, input[pos..]) <==> OccursAt(needle, input, pos)
  {
    if pos + |needle| <= |input| { assert input[pos..][..|needle|] == input[pos..pos + |needle|]; }
  }

  lemma ListsCons(needle: string, input: string, pos: nat, later: seq<Span>)
    requires Lists(needle, input, pos + 1, later) && OccursAt(needle, input, pos)
    ensures Lists(needle, input, pos, [Between(pos, pos + |needle|)] + later)
  {
    hide OccursAt;
    var spans := [Between(pos, pos + |needle|)] + later;
    forall k | 0 <= k < |spans|
      ensures pos <= spans[k].lower && spans[k] == Between(spans[k].lower, spans[k].lower + |needle|) && OccursAt(needle, input, spans[k].lower)
    {
      if k > 0 { assert spans[k] == later[k - 1]; }
    }
    forall i: nat | pos <= i && OccursAt(needle, input, i) ensures Between(i, i + |needle|) in spans {
      if i > pos { assert Between(i, i + |needle|) in later; }
    }
  }

  lemma ListsSkip(needle: string, input: string, pos: nat, later: seq<Span>)
    requires Lists(needle, input, pos + 1, later) && !OccursAt(needle, input, pos)
    ensures Lists(needle, input, pos, later)
  {
    hide OccursAt;
  }

  lemma SearchExactLists(needle: string, input: string)
    requires needle != []
    ensures Lists(needle, input, 0, SearchExact(needle, input))
  {
    assert input[0..] == input;
    SearchFromLists(needle, input, 0);
  }
}

/** JSON paths: the parser that walks an index over tokens, and the printers (sqlglot/jsonpath.py;
    sqlglot/generator.py, `json_path_part`, `_jsonpathkey_sql`, `_jsonpathsubscript_sql`). */
module JsonPath {
  import opened Collections
  import opened Numerals

  datatype TokenType =
    | DOLLAR | DOT | COLON | COMMA | DASH | STAR | L_BRACKET | R_BRACKET | L_PAREN | PLACEHOLDER
    | STRING | IDENTIFIER | NUMBER | VAR | OTHER

  datatype Token = Token(kind: TokenType, text: string)

  /** A literal inside brackets; `Missing` is the parser's False. Scripts and filters keep their tokens. */
  datatype Lit =
    | Text(text: string)
    | Num(n: int)
    | Wild
    | Script(tokens: seq<Token>)
    | Filter(tokens: seq<Token>)
    | Missing

  datatype Item = Plain(lit: Lit) | Slice(start: Lit, end: Lit, step: Option<Lit>)

  datatype Part =
    | Root
    | Key(item: Item)
    | Recursive(name: Option<Lit>)
    | Subscript(item: Item)
    | Selector(item: Item)
    | Union(items: seq<Item>)
    | Wildcard

  /** `BadNumber` and `IndexError` are not parse errors of the original but exceptions it runs into. */
  datatype Error = EmptySegment | ExpectedBracket | ExpectedKey | Unexpected(kind: TokenType) | BadNumber | IndexError

  datatype Result<+T> = Ok(value: T) | Err(error: Error)

  // ---- The grammar, as functions from tokens to what is left of them ----

  datatype Parsed<+T> = Got(value: T, rest: seq<Token>) | Fail(error: Error)

  predicate Starts(ts: seq<Token>, kind: TokenType) {
    ts != [] && ts[0].kind == kind
  }

  function ReadNumber(negative: bool, ts: seq<Token>): (r: Parsed<Lit>)
    ensures r.Got? ==> |r.rest| <= |ts|
  {
    if Starts(ts, NUMBER) then
      match NatOf(ts[0].text)
      case Some(n) => Got(Num(if negative then 0 - n else n), ts[1..])
      case None => Fail(BadNumber)
    else if negative then Fail(BadNumber)
    else Got(Missing, ts)
  }

  function ReadLiteral(ts: seq<Token>): (r: Parsed<Lit>)
    ensures r.Got? ==> |r.rest| <= |ts|
    decreases |ts|, 1
  {
    if ts == [] then Got(Missing, ts)
    else match ts[0].kind
      case STRING | IDENTIFIER => Got(Text(ts[0].text), ts[1..])
      case STAR => Got(Wild, ts[1..])
      case PLACEHOLDER | L_PAREN =>
        (match ReadScript(ts[1..])
         case Got(body, rest) =>
           if rest == [] then Fail(IndexError)
           else Got(if ts[0].text == "(" then Script(body) else Filter(body), rest)
         case Fail(e) => Fail(e))
      case DASH => ReadNumber(true, ts[1..])
      case _ => ReadNumber(false, ts)
  }

  /** Up to the closing bracket; brackets inside must themselves be readable. */
  function ReadScript(ts: seq<Token>): (r: Parsed<seq<Token>>)
    ensures r.Got? ==> |r.rest| <= |ts| && r.value == ts[..|ts| - |r.rest|]
    decreases |ts|, 4
  {
    match (if Starts(ts, L_BRACKET) then SkipBracket(ts[1..]) else Got((), ts))
    case Fail(e) => Fail(e)
    case Got(_, inner) =>
      if inner == [] || inner[0].kind == R_BRACKET then Got(ts[..|ts| - |inner|], inner)
      else match ReadScript(inner[1..])
        case Fail(e) => Fail(e)
        case Got(_, rest) => Got(ts[..|ts| - |rest|], rest)
  }

  function SkipBracket(ts: seq<Token>): (r: Parsed<()>)
    ensures r.Got? ==> |r.rest| <= |ts|
    decreases |ts|, 4
  {
    match ReadBracket(ts)
    case Got(_, rest) => Got((), rest)
    case Fail(e) => Fail(e)
  }

  function ReadSlice(ts: seq<Token>): (r: Parsed<Item>)
    ensures r.Got? ==> |r.rest| <= |ts|
    decreases |ts|, 2
  {
    match ReadLiteral(ts)
    case Fail(e) => Fail(e)
    case Got(start, rest) =>
      if !Starts(rest, COLON) then Got(Plain(start), rest)
      else match ReadLiteral(rest[1..])
        case Fail(e) => Fail(e)
        case Got(end, rest') =>
          if !Starts(rest', COLON) then Got(Slice(start, end, None), rest')
          else match ReadLiteral(rest'[1..])
            case Fail(e) => Fail(e)
            case Got(step, rest'') => Got(Slice(start, end, Some(step)), rest'')
  }

  /** Python's truth: False, 0 and the empty string are false. */
  predicate Truthy(x: Item) {
    x != Plain(Missing) && x != Plain(Num(0)) && x != Plain(Text(""))
  }

  /** The items read so far, and the last one read, whether kept or not. */
  datatype Items = Items(kept: seq<Item>, last: Item)

  function ReadMore(ts: seq<Token>, xs: Items): (r: Parsed<Items>)
    requires xs.kept != []
    ensures r.Got? ==> |r.rest| <= |ts| && r.value.kept != []
    decreases |ts|, 0
  {
    if !Starts(ts, COMMA) then Got(xs, ts)
    else match ReadSlice(ts[1..])
      case Fail(e) => Fail(e)
      case Got(x, rest) => ReadMore(rest, Items(if Truthy(x) then xs.kept + [x] else xs.kept, x))
  }

  /** With one item kept, the kind of the last one read decides. */
  function Node(xs: Items): Part
    requires xs.kept != []
  {
    if |xs.kept| > 1 then Union(xs.kept)
    else match xs.last
      case Plain(Text(_)) => Key(xs.kept[0])
      case Plain(Script(_)) => Selector(xs.kept[0])
      case Plain(Filter(_)) => Selector(xs.kept[0])
      case _ => Subscript(xs.kept[0])
  }

  function ReadBracket(ts: seq<Token>): (r: Parsed<Part>)
    ensures r.Got? ==> |r.rest| <= |ts|
    decreases |ts|, 3
  {
    match ReadSlice(ts)
    case Fail(e) => Fail(e)
    case Got(first, rest) =>
      if first == Plain(Missing) then Fail(EmptySegment)
      else match ReadMore(rest, Items([first], first))
        case Fail(e) => Fail(e)
        case Got(xs, rest') => if Starts(rest', R_BRACKET) then Got(Node(xs), rest'[1..]) else Fail(ExpectedBracket)
  }

  /** Names in a row are one name. */
  function ReadName(ts: seq<Token>): (r: (string, seq<Token>))
    ensures |r.1| <= |ts|
  {
    if Starts(ts, VAR) then var (s, rest) := ReadName(ts[1..]); (ts[0].text + s, rest) else ("", ts)
  }

  function ReadAfterDot(recursive: bool, ts: seq<Token>): (r: Parsed<Part>)
    ensures r.Got? ==> |r.rest| <= |ts|
  {
    if Starts(ts, VAR) then
      var (s, rest) := ReadName(ts);
      NamedPart(recursive, s, rest)
    else if Starts(ts, IDENTIFIER) then NamedPart(recursive, ts[0].text, ts[1..])
    else if Starts(ts, STAR) then Got(if recursive then Recursive(Some(Wild)) else Key(Plain(Wild)), ts[1..])
    else if recursive then Got(Recursive(None), ts)
    else Fail(ExpectedKey)
  }

  function NamedPart(recursive: bool, s: string, rest: seq<Token>): (r: Parsed<Part>)
    ensures r.Got? ==> r.rest == rest
  {
    if recursive then Got(Recursive(Some(Text(s))), rest)
    else if s != "" then Got(Key(Plain(Text(s))), rest)
    else Fail(ExpectedKey)
  }

  /** One segment. */
  function ReadPart(ts: seq<Token>): (r: Parsed<Part>)
    requires ts != []
    ensures r.Got? ==> |r.rest| < |ts|
  {
    match ts[0].kind
    case DOT | COLON => ReadAfterDot(ts[0].text == "..", ts[1..])
    case L_BRACKET => ReadBracket(ts[1..])
    case VAR => var (s, rest) := ReadName(ts); assert rest == ReadName(ts[1..]).1; Got(Key(Plain(Text(s))), rest)
    case IDENTIFIER => Got(Key(Plain(Text(ts[0].text))), ts[1..])
    case STAR => Got(Wildcard, ts[1..])
    case k => Fail(Unexpected(k))
  }

  function ReadParts(ts: seq<Token>): Result<seq<Part>>
    decreases |ts|
  {
    if ts == [] then Ok([])
    else match ReadPart(ts)
      case Fail(e) => Err(e)
      case Got(p, rest) =>
        match ReadParts(rest)
        case Ok(ps) => Ok([p] + ps)
        case Err(e) => Err(e)
  }

  /** `parse`: the path always starts with a root. */
  function ReadPath(ts: seq<Token>): Result<seq<Part>> {
    match ReadParts(if Starts(ts, DOLLAR) then ts[1..] else ts)
    case Ok(ps) => Ok([Root] + ps)
    case Err(e) => Err(e)
  }

  // ---- Printing ----

  /** What is printed depends on which names are safe to leave unquoted, and on whether the dialect
      quotes keys in brackets. */
  datatype Style = Style(safe: string -> bool, bracketed: bool)

  function PrintLit(l: Lit): seq<Token> {
    match l
    case Text(s) => [Token(IDENTIFIER, s)]
    case Num(n) => if n < 0 then [Token(DASH, "-"), Token(NUMBER, TextOf(-n))] else [Token(NUMBER, TextOf(n))]
    case Wild => [Token(STAR, "*")]
    case Script(ts) => [Token(L_PAREN, "(")] + ts
    case Filter(ts) => [Token(PLACEHOLDER, "?")] + ts
    case Missing => []
  }

  const COLON_TOKEN := Token(COLON, ":")
  const COMMA_TOKEN := Token(COMMA, ",")

  function PrintItem(x: Item): seq<Token> {
    match x
    case Plain(l) => PrintLit(l)
    case Slice(start, end, None) => PrintLit(start) + [COLON_TOKEN] + PrintLit(end)
    case Slice(start, end, Some(step)) =>
      PrintLit(start) + [COLON_TOKEN] + PrintLit(end) + [COLON_TOKEN] + PrintLit(step)
  }

  function PrintMore(xs: seq<Item>): seq<Token> {
    if xs == [] then [] else [COMMA_TOKEN] + PrintItem(xs[0]) + PrintMore(xs[1..])
  }

  function InBrackets(ts: seq<Token>): seq<Token> {
    [Token(L_BRACKET, "[")] + ts + [Token(R_BRACKET, "]")]
  }

  /** Keys are names or wildcards; the name of a recursive step is printed without quotes. */
  predicate Printable(p: Part, style: Style) {
    match p
    case Key(x) => x.Plain? && (x.lit.Text? || x.lit.Wild?)
    case Recursive(name) => name == None || name.value.Wild? || (name.value.Text? && style.safe(name.value.text))
    case _ => true
  }

  function PrintPart(p: Part, style: Style): seq<Token>
    requires Printable(p, style)
  {
    match p
    case Root => [Token(DOLLAR, "$")]
    case Key(Plain(Text(s))) =>
      if style.safe(s) then [Token(DOT, "."), Token(VAR, s)]
      else if style.bracketed then InBrackets(PrintLit(Text(s)))
      else [Token(DOT, ".")] + PrintLit(Text(s))
    case Key(_) => [Token(DOT, "."), Token(STAR, "*")]
    case Recursive(None) => [Token(DOT, "..")]
    case Recursive(Some(Text(s))) => [Token(DOT, ".."), Token(VAR, s)]
    case Recursive(_) => [Token(DOT, ".."), Token(STAR, "*")]
    case Subscript(x) => InBrackets(PrintItem(x))
    case Selector(x) => InBrackets(PrintItem(x))
    case Union(xs) => InBrackets(if xs == [] then [] else PrintItem(xs[0]) + PrintMore(xs[1..]))
    case Wildcard => [Token(STAR, "*")]
  }

  function PrintPath(ps: seq<Part>, style: Style): seq<Token>
    requires forall p :: p in ps ==> Printable(p, style)
  {
    if ps == [] then [] else PrintPart(ps[0], style) + PrintPath(ps[1..], style)
  }

  // ---- Which parts can be read back ----

  predicate Simple(l: Lit) {
    l.Text? || l.Num? || l.Wild?
  }

  /** A script or filter without brackets inside. */
  predicate Bare(l: Lit) {
    (l.Script? || l.Filter?) && forall t :: t in l.tokens ==> t.kind != L_BRACKET && t.kind != R_BRACKET
  }

  predicate SimpleItem(x: Item) {
    match x
    case Plain(l) => Simple(l)
    case Slice(a, b, c) =>
      && (Simple(a) || a == Missing) && (Simple(b) || b == Missing)
      && (c == None || Simple(c.value) || c == Some(Missing))
  }

  /** Only the last item of a union can be a script or a filter: it reaches to the bracket. */
  predicate SimpleItems(xs: seq<Item>) {
    forall i :: 0 <= i < |xs| ==> SimpleItem(xs[i]) || (i == |xs| - 1 && xs[i].Plain? && Bare(xs[i].lit))
  }

  predicate SingleItem(x: Item) {
    SimpleItem(x) || (x.Plain? && Bare(x.lit))
  }

  /** The parts whose printed form consists of literals, slices of them, and at most a last script or filter. */
  predicate Sound(p: Part, style: Style) {
    match p
    case Subscript(x) => SingleItem(x)
    case Selector(x) => SingleItem(x)
    case Union(xs) => SimpleItems(xs)
    case _ => Printable(p, style)
  }

  function Kept(xs: seq<Item>): seq<Item> {
    if xs == [] then [] else (if Truthy(xs[0]) then [xs[0]] else []) + Kept(xs[1..])
  }

  /** What a printed part is read back as: a union loses its false members, except the first. */
  function Reading(p: Part, style: Style): Result<Part> {
    match p
    case Root => Err(Unexpected(DOLLAR))
    case Key(x) => if x == Plain(Text("")) && !style.bracketed then Err(ExpectedKey) else Ok(p)
    case Subscript(x) => Ok(Node(Items([x], x)))
    case Selector(x) => Ok(Node(Items([x], x)))
    case Union(xs) =>
      if xs == [] then Err(EmptySegment) else Ok(Node(Items([xs[0]] + Kept(xs[1..]), xs[|xs| - 1])))
    case _ => Ok(p)
  }

  /** The parts that are read back as they are. */
  predicate Stays(p: Part, style: Style) {
    match p
    case Root => false
    case Key(x) => x != Plain(Text("")) || style.bracketed
    case Subscript(x) => !(x.Plain? && (x.lit.Text? || x.lit.Script? || x.lit.Filter?))
    case Selector(x) => x.Plain? && (x.lit.Script? || x.lit.Filter?)
    case Union(xs) => |xs| > 1 && forall i :: 0 < i < |xs| ==> Truthy(xs[i])
    case _ => true
  }

  lemma {:induction false} KeptAll(xs: seq<Item>)
    ensures |Kept(xs)| <= |xs|
    ensures |Kept(xs)| == |xs| <==> forall i :: 0 <= i < |xs| ==> Truthy(xs[i])
    ensures |Kept(xs)| == |xs| ==> Kept(xs) == xs
    decreases |xs|
  {
    if xs != [] {
      KeptAll(xs[1..]);
      assert forall i :: 0 < i < |xs| ==> xs[i] == xs[1..][i - 1];
      assert xs == [xs[0]] + xs[1..];
    }
  }

  lemma {:induction false} ReadingIsSame(p: Part, style: Style)
    ensures Reading(p, style) == Ok(p) <==> Stays(p, style)
  {
    if p.Union? && p.items != [] {
      var rest := p.items[1..];
      KeptAll(rest);
      assert p.items == [p.items[0]] + rest;
      assert forall i :: 0 <= i < |rest| ==> rest[i] == p.items[i + 1];
      if Reading(p, style) == Ok(p) {
        assert |Kept(rest)| == |rest|;
        forall i | 0 < i < |p.items| ensures Truthy(p.items[i]) { assert p.items[i] == rest[i - 1]; }
      }
    }
  }

  // ---- Reading what was printed ----

  lemma {:induction false} LiteralReads(l: Lit, rest: seq<Token>)
    requires Simple(l)
    ensures ReadLiteral(PrintLit(l) + rest) == Got(l, rest)
  {
    var ts := PrintLit(l) + rest;
    if l.Num? {
      NumberRoundTrip(if l.n < 0 then -l.n else l.n);
      if l.n < 0 {
        assert ts[1..] == [Token(NUMBER, TextOf(-l.n))] + rest && ts[1..][1..] == rest;
      }
    }
    if !(l.Num? && l.n < 0) { assert ts[1..] == rest; }
  }

  /** After a literal comes a separator. */
  predicate Ends(rest: seq<Token>) {
    Starts(rest, COLON) || Starts(rest, COMMA) || Starts(rest, R_BRACKET)
  }

  lemma {:induction false} OptionalReads(l: Lit, rest: seq<Token>)
    requires (Simple(l) || l == Missing) && Ends(rest)
    ensures ReadLiteral(PrintLit(l) + rest) == Got(l, rest)
  {
    if l == Missing {
      assert PrintLit(l) + rest == rest;
    } else {
      LiteralReads(l, rest);
    }
  }

  lemma {:induction false} ScriptReads(body: seq<Token>, rest: seq<Token>)
    requires (forall t :: t in body ==> t.kind != L_BRACKET && t.kind != R_BRACKET) && Starts(rest, R_BRACKET)
    ensures ReadScript(body + rest) == Got(body, rest)
    decreases |body|
  {
    var ts := body + rest;
    if body == [] {
      assert ts == rest;
    } else {
      assert ts[0] == body[0] && ts[1..] == body[1..] + rest;
      ScriptReads(body[1..], rest);
    }
  }

  lemma {:induction false} ItemReads(x: Item, rest: seq<Token>)
    requires SimpleItem(x) && (Starts(rest, COMMA) || Starts(rest, R_BRACKET))
    ensures ReadSlice(PrintItem(x) + rest) == Got(x, rest)
  {
    hide PrintLit, ReadLiteral;
    match x {
      case Plain(l) => LiteralReads(l, rest);
      case Slice(a, b, c) =>
        var inner := match c case None => rest case Some(step) => [COLON_TOKEN] + (PrintLit(step) + rest);
        var after := [COLON_TOKEN] + (PrintLit(b) + inner);
        assert PrintItem(x) + rest == PrintLit(a) + after;
        OptionalReads(a, after);
        assert after[1..] == PrintLit(b) + inner;
        OptionalReads(b, inner);
        if c.Some? {
          assert inner[1..] == PrintLit(c.value) + rest;
          OptionalReads(c.value, rest);
        }
    }
  }

  lemma {:induction false} BareReads(l: Lit, rest: seq<Token>)
    requires Bare(l) && Starts(rest, R_BRACKET)
    ensures ReadSlice(PrintItem(Plain(l)) + rest) == Got(Plain(l), rest)
  {
    hide ReadScript, ReadLiteral, ReadSlice;
    var ts := PrintLit(l) + rest;
    assert ts[1..] == l.tokens + rest;
    ScriptReads(l.tokens, rest);
    LiteralOfScript(ts, l.tokens, rest);
    SliceOfLiteral(ts, l, rest);
  }

  lemma {:induction false} LiteralOfScript(ts: seq<Token>, body: seq<Token>, rest: seq<Token>)
    requires ts != [] && (ts[0].kind == PLACEHOLDER || ts[0].kind == L_PAREN) && ReadScript(ts[1..]) == Got(body, rest)
    requires rest != []
    ensures ReadLiteral(ts) == Got(if ts[0].text == "(" then Script(body) else Filter(body), rest)
  {
    hide ReadScript;
  }

  lemma {:induction false} SliceOfLiteral(ts: seq<Token>, l: Lit, rest: seq<Token>)
    requires ReadLiteral(ts) == Got(l, rest) && !Starts(rest, COLON)
    ensures ReadSlice(ts) == Got(Plain(l), rest)
  {
    hide ReadLiteral;
  }

  lemma {:induction false} MoreReads(xs: seq<Item>, acc: Items, rest: seq<Token>)
    requires acc.kept != [] && SimpleItems(xs) && Starts(rest, R_BRACKET)
    ensures ReadMore(PrintMore(xs) + rest, acc) == Got(Items(acc.kept + Kept(xs),
              if xs == [] then acc.last
              else xs[|xs| - 1]), rest)
    decreases |xs|
  {
    hide ReadSlice, PrintItem, ReadMore, SimpleItems, PrintMore, Truthy;
    if xs == [] {
      NoMore(acc, rest);
    } else {
      hide Kept;
      var x, ys := xs[0], xs[1..];
      var after := PrintMore(ys) + rest;
      var acc' := Items(if Truthy(x) then acc.kept + [x] else acc.kept, x);
      NextItem(xs, rest);
      MoreStep(PrintMore(xs) + rest, acc, x, after);
      MoreReads(ys, acc', rest);
      KeptStep(acc.kept, xs);
    }
  }

  lemma {:induction false} KeptStep(kept: seq<Item>, xs: seq<Item>)
    requires xs != []
    ensures (if Truthy(xs[0]) then kept + [xs[0]] else kept) + Kept(xs[1..]) == kept + Kept(xs)
  {
  }

  lemma {:induction false} NoMore(acc: Items, rest: seq<Token>)
    requires acc.kept != [] && Starts(rest, R_BRACKET)
    ensures ReadMore(PrintMore([]) + rest, acc) == Got(Items(acc.kept + Kept([]), acc.last), rest)
  {
    hide ReadSlice;
    assert PrintMore([]) + rest == rest;
    assert acc.kept + [] == acc.kept;
  }

  lemma {:induction false} MoreStep(ts: seq<Token>, acc: Items, x: Item, rest: seq<Token>)
    requires acc.kept != [] && Starts(ts, COMMA) && ReadSlice(ts[1..]) == Got(x, rest)
    ensures ReadMore(ts, acc) == ReadMore(rest, Items(if Truthy(x) then acc.kept + [x] else acc.kept, x))
  {
    hide ReadSlice;
  }

  lemma {:induction false} NextItem(xs: seq<Item>, rest: seq<Token>)
    requires xs != [] && SimpleItems(xs) && Starts(rest, R_BRACKET)
    ensures SimpleItems(xs[1..]) && Starts(PrintMore(xs) + rest, COMMA)
    ensures ReadSlice((PrintMore(xs) + rest)[1..]) == Got(xs[0], PrintMore(xs[1..]) + rest)
  {
    hide ReadSlice, PrintItem;
    var x, ys := xs[0], xs[1..];
    var after := PrintMore(ys) + rest;
    assert PrintMore(xs) + rest == [COMMA_TOKEN] + (PrintItem(x) + after);
    assert forall i :: 0 <= i < |ys| ==> ys[i] == xs[i + 1];
    if |xs| == 1 {
      assert after == rest;
      if SimpleItem(x) { ItemReads(x, after); } else { BareReads(x.lit, after); }
    } else {
      ItemReads(x, after);
    }
  }

  lemma {:induction false} BracketReads(xs: seq<Item>, rest: seq<Token>)
    requires xs != [] && SimpleItems(xs)
    ensures ReadBracket(PrintItem(xs[0]) + PrintMore(xs[1..]) + [Token(R_BRACKET, "]")] + rest) ==
            Got(Node(Items([xs[0]] + Kept(xs[1..]), xs[|xs| - 1])), rest)
  {
    hide ReadSlice, PrintItem, ReadMore;
    var x, ys, close := xs[0], xs[1..], [Token(R_BRACKET, "]")] + rest;
    var after := PrintMore(ys) + close;
    assert PrintItem(x) + PrintMore(ys) + [Token(R_BRACKET, "]")] + rest == PrintItem(x) + after;
    assert forall i :: 0 <= i < |ys| ==> ys[i] == xs[i + 1];
    if |xs| == 1 {
      assert after == close;
      if SimpleItem(x) { ItemReads(x, after); } else { BareReads(x.lit, after); }
    } else {
      ItemReads(x, after);
    }
    MoreReads(ys, Items([x], x), close);
    assert close[1..] == rest;
  }

  /** What follows a printed part: nothing, or another part. A wildcard after a bare `..` would be taken for its
      name. */
  predicate Follows(p: Part, rest: seq<Token>) {
    && !Starts(rest, VAR) && !Starts(rest, IDENTIFIER)
    && (p == Recursive(None) ==> !Starts(rest, STAR))
  }

  lemma {:induction false} NameReads(s: string, rest: seq<Token>)
    requires !Starts(rest, VAR)
    ensures ReadName([Token(VAR, s)] + rest) == (s, rest)
  {
    assert ([Token(VAR, s)] + rest)[1..] == rest;
    assert s + "" == s;
  }

  function NameTokens(names: seq<string>): seq<Token> {
    if names == [] then [] else [Token(VAR, names[0])] + NameTokens(names[1..])
  }

  function Joined(names: seq<string>): string {
    if names == [] then "" else names[0] + Joined(names[1..])
  }

  /** Names in a row are read to the last one, as one name. */
  lemma {:induction false} NamesRead(names: seq<string>, rest: seq<Token>)
    requires !Starts(rest, VAR)
    ensures ReadName(NameTokens(names) + rest) == (Joined(names), rest)
    decreases |names|
  {
    var ts := NameTokens(names) + rest;
    if names == [] {
      assert ts == rest;
    } else {
      assert ts[1..] == NameTokens(names[1..]) + rest;
      NamesRead(names[1..], rest);
    }
  }

  /** A key of several names, at the start of a path or behind a dot. */
  lemma {:induction false} KeyOfNames(names: seq<string>, rest: seq<Token>)
    requires !Starts(rest, VAR) && Joined(names) != ""
    ensures ReadPart(NameTokens(names) + rest) == Got(Key(Plain(Text(Joined(names)))), rest)
    ensures ReadPart([Token(DOT, ".")] + NameTokens(names) + rest) == Got(Key(Plain(Text(Joined(names)))), rest)
    ensures ReadPart([Token(DOT, "..")] + NameTokens(names) + rest) == Got(Recursive(Some(Text(Joined(names)))), rest)
  {
    hide ReadBracket, ReadName, Joined;
    NamesRead(names, rest);
    var ts := NameTokens(names) + rest;
    assert names != [] by { if names == [] { assert Joined([]) == "" by { EmptyName(); } } }
    assert ts[0] == Token(VAR, names[0]);
    assert ([Token(DOT, ".")] + NameTokens(names) + rest)[1..] == ts;
    assert ([Token(DOT, "..")] + NameTokens(names) + rest)[1..] == ts;
  }

  lemma {:induction false} EmptyName()
    ensures Joined([]) == ""
  {
  }

  /** The outcome of reading one part, with the tokens that are left. */
  ghost predicate ReadsAs(ts: seq<Token>, r: Result<Part>, rest: seq<Token>)
    requires ts != []
  {
    ReadPart(ts) == match r case Ok(q) => Got(q, rest) case Err(e) => Fail(e)
  }

  lemma {:induction false} PartReads(p: Part, style: Style, rest: seq<Token>)
    requires Sound(p, style) && Printable(p, style) && Follows(p, rest) && !style.safe("")
    ensures ReadsAs(PrintPart(p, style) + rest, Reading(p, style), rest)
  {
    hide ReadPart, PrintPart, ReadBracket, ReadsAs, Reading;
    match p {
      case Root => RootFails(style, rest);
      case Wildcard => WildcardReads(style, rest);
      case Subscript(_) => BracketedReads(p, style, rest);
      case Selector(_) => BracketedReads(p, style, rest);
      case Union(_) => BracketedReads(p, style, rest);
      case Key(x) =>
        if x.lit.Text? && !style.safe(x.lit.text) && style.bracketed {
          BracketedReads(p, style, rest);
        } else {
          DottedReads(p, style, rest);
        }
      case Recursive(_) => DottedReads(p, style, rest);
    }
  }

  lemma {:induction false} RootFails(style: Style, rest: seq<Token>)
    ensures ReadsAs(PrintPart(Root, style) + rest, Reading(Root, style), rest)
  {
    hide ReadBracket;
  }

  lemma {:induction false} WildcardReads(style: Style, rest: seq<Token>)
    ensures ReadsAs(PrintPart(Wildcard, style) + rest, Reading(Wildcard, style), rest)
  {
    hide ReadBracket;
    assert (PrintPart(Wildcard, style) + rest)[1..] == rest;
  }

  /** The parts that are printed in brackets. */
  lemma {:induction false} BracketedReads(p: Part, style: Style, rest: seq<Token>)
    requires Sound(p, style) && Printable(p, style)
    requires p.Subscript? || p.Selector? || p.Union? ||
               (p.Key? && p.item.lit.Text? && !style.safe(p.item.lit.text) && style.bracketed)
    ensures ReadsAs(PrintPart(p, style) + rest, Reading(p, style), rest)
  {
    hide ReadBracket, PrintItem, PrintMore, ReadPart, SimpleItems, SimpleItem;
    var ts := PrintPart(p, style) + rest;
    match p {
      case Subscript(x) => OneInBrackets(x, rest, ts);
      case Selector(x) => OneInBrackets(x, rest, ts);
      case Union(xs) =>
        BracketPart(ts);
        if xs == [] {
          NoneInBrackets(rest, ts);
        } else {
          assert ts[1..] == PrintItem(xs[0]) + PrintMore(xs[1..]) + [Token(R_BRACKET, "]")] + rest;
          BracketReads(xs, rest);
        }
      case Key(x) =>
        TextItem(x);
        OneInBrackets(x, rest, ts);
    }
  }

  lemma {:induction false} NoneInBrackets(rest: seq<Token>, ts: seq<Token>)
    requires ts == InBrackets([]) + rest
    ensures ReadBracket(ts[1..]) == Fail(EmptySegment)
  {
    hide ReadMore, ReadScript;
    assert ts[1..] == [Token(R_BRACKET, "]")] + rest;
    assert ReadLiteral(ts[1..]) == Got(Missing, ts[1..]);
    SliceOfLiteral(ts[1..], Missing, ts[1..]);
  }

  lemma {:induction false} TextItem(x: Item)
    requires x.Plain? && x.lit.Text?
    ensures SimpleItem(x) && PrintItem(x) == PrintLit(x.lit)
  {
  }

  lemma {:induction false} BracketPart(ts: seq<Token>)
    requires Starts(ts, L_BRACKET)
    ensures ReadPart(ts) == ReadBracket(ts[1..])
  {
    hide ReadBracket;
  }

  /** The parts that are printed after a dot. */
  lemma {:induction false} DottedReads(p: Part, style: Style, rest: seq<Token>)
    requires Sound(p, style) && Printable(p, style) && Follows(p, rest) && !style.safe("")
    requires p.Recursive? || (p.Key? && !(p.item.lit.Text? && !style.safe(p.item.lit.text) && style.bracketed))
    ensures ReadsAs(PrintPart(p, style) + rest, Reading(p, style), rest)
  {
    hide ReadBracket, ReadName, SimpleItems, SimpleItem;
    var ts := PrintPart(p, style) + rest;
    if p == Recursive(None) {
      assert ts[1..] == rest;
    } else {
      assert ts[1..] == [ts[1]] + rest && ts[1..][1..] == rest;
      NameReads(ts[1].text, rest);
    }
  }

  lemma {:induction false} OneInBrackets(x: Item, rest: seq<Token>, ts: seq<Token>)
    requires SingleItem(x) && ts == InBrackets(PrintItem(x)) + rest
    ensures ReadPart(ts) == Got(Node(Items([x], x)), rest)
  {
    hide ReadBracket, PrintItem, SimpleItem;
    assert [x][1..] == [] && [x] + Kept([]) == [x];
    assert ts[1..] == PrintItem(x) + PrintMore([]) + [Token(R_BRACKET, "]")] + rest;
    BracketReads([x], rest);
  }

  /** The tokens of `[n]`, with a sign of its own in front of a negative number. */
  function IndexTokens(n: int): seq<Token> {
    [Token(L_BRACKET, "[")] + (if n < 0 then [Token(DASH, "-"), Token(NUMBER, TextOf(-n))]
      else [Token(NUMBER, TextOf(n))])
      + [Token(R_BRACKET, "]")]
  }

  lemma {:induction false} IndexReads(n: int, rest: seq<Token>)
    ensures ReadPart(IndexTokens(n) + rest) == Got(Subscript(Plain(Num(n))), rest)
  {
    hide ReadPart;
    OneInBrackets(Plain(Num(n)), rest, IndexTokens(n) + rest);
  }

  /** The tokens of `[a:b:c]` */
  function SliceTokens(a: nat, b: nat, c: nat): seq<Token> {
    [Token(L_BRACKET, "["), Token(NUMBER, TextOf(a)), Token(COLON, ":"), Token(NUMBER, TextOf(b)), Token(COLON, ":"),
      Token(NUMBER, TextOf(c)), Token(R_BRACKET, "]")]
  }

  lemma {:induction false} SliceReads(a: nat, b: nat, c: nat, rest: seq<Token>)
    ensures ReadPart(SliceTokens(a, b, c) + rest) == Got(Subscript(Slice(Num(a), Num(b), Some(Num(c)))), rest)
  {
    hide ReadPart;
    var x := Slice(Num(a), Num(b), Some(Num(c)));
    assert InBrackets(PrintItem(x)) == SliceTokens(a, b, c);
    OneInBrackets(x, rest, SliceTokens(a, b, c) + rest);
  }

  /** The tokens of `[s,n]`, a name and an index */
  function UnionTokens(s: string, n: nat): seq<Token> {
    [Token(L_BRACKET, "["), Token(IDENTIFIER, s), Token(COMMA, ","), Token(NUMBER, TextOf(n)), Token(R_BRACKET, "]")]
  }

  lemma {:induction false} UnionReads(s: string, n: nat, rest: seq<Token>)
    requires n > 0
    ensures ReadPart(UnionTokens(s, n) + rest) == Got(Union([Plain(Text(s)), Plain(Num(n))]), rest)
  {
    hide ReadPart, ReadBracket, ReadMore;
    var x, y := Plain(Text(s)), Plain(Num(n));
    var xs := [x, y];
    assert xs[1..] == [y] && [y][1..] == [] && Kept([]) == [] && Truthy(y) && [y] + [] == [y];
    assert Kept([y]) == [y] && Node(Items(xs, y)) == Union(xs);
    assert PrintMore([]) == [] && PrintMore([y]) == [COMMA_TOKEN] + PrintItem(y) + PrintMore([]);
    assert [x] + Kept([y]) == xs;
    var ts := UnionTokens(s, n) + rest;
    assert ts[1..] == PrintItem(x) + PrintMore([y]) + [Token(R_BRACKET, "]")] + rest;
    BracketPart(ts);
    BracketReads(xs, rest);
  }

  /** A wildcard right after a bare `..` is taken for its name. */
  predicate Merges(ps: seq<Part>) {
    |ps| > 1 && ps[0] == Recursive(None) && ps[1] == Wildcard
  }

  /** What a printed path is read back as. */
  function Reread(ps: seq<Part>, style: Style): Result<seq<Part>>
    decreases |ps|
  {
    if ps == [] then Ok([])
    else match (if Merges(ps) then Ok(Recursive(Some(Wild))) else Reading(ps[0], style))
      case Err(e) => Err(e)
      case Ok(p) =>
        match Reread(if Merges(ps) then ps[2..] else ps[1..], style)
        case Ok(qs) => Ok([p] + qs)
        case Err(e) => Err(e)
  }

  ghost predicate AllSound(ps: seq<Part>, style: Style) {
    forall i :: 0 <= i < |ps| ==> Sound(ps[i], style) && Printable(ps[i], style)
  }

  lemma {:induction false} PrintedFollows(p: Part, ps: seq<Part>, style: Style)
    requires !Merges([p] + ps) && forall q :: q in ps ==> Printable(q, style)
    ensures Follows(p, PrintPath(ps, style))
  {
    var all := [p] + ps;
    assert all[0] == p;
    if ps != [] {
      assert all[1] == ps[0];
      var ts := PrintPart(ps[0], style);
      assert ts != [] && PrintPath(ps, style)[0] == ts[0];
    }
  }

  lemma {:induction false} MergeReads(ps: seq<Part>, style: Style)
    requires Merges(ps) && forall q :: q in ps ==> Printable(q, style)
    ensures PrintPath(ps, style) != []
    ensures ReadPart(PrintPath(ps, style)) == Got(Recursive(Some(Wild)), PrintPath(ps[2..], style))
  {
    hide ReadBracket;
    var ts, after := PrintPath(ps, style), PrintPath(ps[1..], style);
    assert ps[1..][0] == Wildcard && ps[1..][1..] == ps[2..];
    assert ts == [Token(DOT, "..")] + after && after == [Token(STAR, "*")] + PrintPath(ps[2..], style);
    assert ts[1..] == after && after[1..] == PrintPath(ps[2..], style);
  }

  lemma {:induction false} FirstReads(ps: seq<Part>, style: Style)
    requires ps != [] && !Merges(ps) && AllSound(ps, style) && !style.safe("")
    requires forall p :: p in ps ==> Printable(p, style)
    ensures PrintPath(ps, style) != []
    ensures ReadsAs(PrintPath(ps, style), Reading(ps[0], style), PrintPath(ps[1..], style))
  {
    hide ReadPart, PrintPart, Printable, Sound, Follows, ReadsAs, Reading;
    assert ps == [ps[0]] + ps[1..];
    PrintedFollows(ps[0], ps[1..], style);
    PartReads(ps[0], style, PrintPath(ps[1..], style));
    PrintedPart(ps[0], style);
  }

  lemma {:induction false} PartsRead(ps: seq<Part>, style: Style)
    requires AllSound(ps, style) && !style.safe("") && forall p :: p in ps ==> Printable(p, style)
    ensures ReadParts(PrintPath(ps, style)) == Reread(ps, style)
    decreases |ps|
  {
    if ps != [] {
      hide ReadPart, PrintPath, Printable, Sound, Reading;
      if Merges(ps) {
        MergeReads(ps, style);
        assert forall i :: 0 <= i < |ps[2..]| ==> ps[2..][i] == ps[i + 2];
        PartsRead(ps[2..], style);
      } else {
        FirstReads(ps, style);
        assert forall i :: 0 <= i < |ps[1..]| ==> ps[1..][i] == ps[i + 1];
        PartsRead(ps[1..], style);
      }
    } else {
      assert PrintPath(ps, style) == [];
    }
  }

  lemma {:induction false} PrintedPart(p: Part, style: Style)
    requires Printable(p, style)
    ensures PrintPart(p, style) != []
  {
  }

  /** Every part stays as it is, and no wildcard comes right after a bare `..`. */
  ghost predicate Canonical(ps: seq<Part>, style: Style) {
    && (forall i :: 0 <= i < |ps| ==> Stays(ps[i], style))
    && (forall i, j {:trigger ps[i], ps[j]} :: 0 <= i < |ps| && j == i + 1 < |ps| ==>
         !(ps[i] == Recursive(None) && ps[j] == Wildcard))
  }

  lemma {:induction false} CanonicalStep(ps: seq<Part>, style: Style)
    requires ps != []
    ensures Canonical(ps, style) <==> Stays(ps[0], style) && !Merges(ps) && Canonical(ps[1..], style)
  {
    hide Stays;
    var rest := ps[1..];
    assert forall i :: 0 <= i < |rest| ==> rest[i] == ps[i + 1];
    if Stays(ps[0], style) && !Merges(ps) && Canonical(rest, style) {
      forall i | 0 <= i < |ps| ensures Stays(ps[i], style) { assert i > 0 ==> ps[i] == rest[i - 1]; }
      forall i, j | 0 <= i < |ps| && j == i + 1 < |ps| ensures !(ps[i] == Recursive(None) && ps[j] == Wildcard) {
        if i > 0 { assert ps[i] == rest[i - 1] && ps[j] == rest[j - 1]; }
      }
    }
  }

  lemma {:induction false} RereadIsSame(ps: seq<Part>, style: Style)
    ensures Reread(ps, style).Ok? ==> |Reread(ps, style).value| <= |ps|
    ensures Reread(ps, style) == Ok(ps) <==> Canonical(ps, style)
    decreases |ps|
  {
    if ps != [] {
      hide Reading, Stays, Canonical;
      CanonicalStep(ps, style);
      ReadingIsSame(ps[0], style);
      assert ps == [ps[0]] + ps[1..];
      if Merges(ps) {
        RereadIsSame(ps[2..], style);
      } else {
        RereadIsSame(ps[1..], style);
        if Reread(ps, style) == Ok(ps) {
          assert Reread(ps, style).value[1..] == Reread(ps[1..], style).value;
        }
      }
    }
  }

  /** Parsing what was printed, and exactly which paths come back unchanged. */
  lemma {:induction false} RoundTrip(ps: seq<Part>, style: Style)
    requires AllSound(ps, style) && !style.safe("") && forall p :: p in [Root] + ps ==> Printable(p, style)
    ensures ReadPath(PrintPath([Root] + ps, style)) ==
              match Reread(ps, style) case Ok(qs) => Ok([Root] + qs) case Err(e) => Err(e)
    ensures ReadPath(PrintPath([Root] + ps, style)) == Ok([Root] + ps) <==> Canonical(ps, style)
  {
    var all := [Root] + ps;
    assert all[1..] == ps;
    var ts := PrintPath(all, style);
    assert ts[0].kind == DOLLAR && ts[1..] == PrintPath(ps, style);
    PartsRead(ps, style);
    RereadIsSame(ps, style);
    if Reread(ps, style).Ok? {
      assert ([Root] + Reread(ps, style).value)[1..] == Reread(ps, style).value && ([Root] + ps)[1..] == ps;
    }
  }

  /** `$[1,0]` is read back as `$[1]`. */
  lemma {:induction false} LosesZero(style: Style)
    requires !style.safe("")
    ensures ReadPath(PrintPath([Root, Union([Plain(Num(1)), Plain(Num(0))])], style)) ==
              Ok([Root, Subscript(Plain(Num(1)))])
  {
    hide PrintPath, ReadPath, PrintPart, ReadPart, ReadParts;
    var p := Union([Plain(Num(1)), Plain(Num(0))]);
    assert [p][1..] == [] && [Root] + [p] == [Root, p];
    assert Kept([Plain(Num(0))]) == [] && [Plain(Num(1))] + [] == [Plain(Num(1))];
    assert [Plain(Num(1)), Plain(Num(0))][1..] == [Plain(Num(0))];
    assert Reading(p, style) == Ok(Subscript(Plain(Num(1))));
    var ok: Result<seq<Part>> := Ok([]);
    assert Reread([], style) == ok && [Subscript(Plain(Num(1)))] + [] == [Subscript(Plain(Num(1)))];
    assert !Merges([p]);
    RoundTrip([p], style);
    assert [Root] + [Subscript(Plain(Num(1)))] == [Root, Subscript(Plain(Num(1)))];
  }

  /** An empty key is refused where it is printed without brackets. */
  lemma {:induction false} RefusesEmptyKey(style: Style)
    requires !style.safe("") && !style.bracketed
    ensures ReadPath(PrintPath([Root, Key(Plain(Text("")))], style)) == Err(ExpectedKey)
  {
    hide PrintPath, ReadPath, PrintPart, ReadPart, ReadParts;
    var p := Key(Plain(Text("")));
    assert [Root] + [p] == [Root, p] && Reading(p, style) == Err(ExpectedKey) && !Merges([p]);
    RoundTrip([p], style);
  }

  /** `$..*`, printed from a bare `..` in front of a wildcard, is read back as one part. */
  lemma {:induction false} MergesWildcard(style: Style)
    requires !style.safe("")
    ensures ReadPath(PrintPath([Root, Recursive(None), Wildcard], style)) == Ok([Root, Recursive(Some(Wild))])
  {
    hide PrintPath, ReadPath, PrintPart, ReadPart, ReadParts;
    var ps := [Recursive(None), Wildcard];
    var ok: Result<seq<Part>> := Ok([]);
    assert ps[2..] == [] && Merges(ps) && Reread([], style) == ok;
    assert [Root] + ps == [Root, Recursive(None), Wildcard];
    RoundTrip(ps, style);
    assert [Recursive(Some(Wild))] + [] == [Recursive(Some(Wild))];
    assert [Root] + [Recursive(Some(Wild))] == [Root, Recursive(Some(Wild))];
  }

  // ---- The parser ----

  lemma {:induction false} LiteralCases(ts: seq<Token>)
    ensures Starts(ts, STRING) || Starts(ts, IDENTIFIER) ==> ReadLiteral(ts) == Got(Text(ts[0].text), ts[1..])
    ensures Starts(ts, STAR) ==> ReadLiteral(ts) == Got(Wild, ts[1..])
    ensures Starts(ts, PLACEHOLDER) || Starts(ts, L_PAREN) ==>
              match ReadScript(ts[1..])
              case Got(body, rest) =>
                ReadLiteral(ts) == if rest == [] then Fail(IndexError)
                                   else Got(if ts[0].text == "(" then Script(body) else Filter(body), rest)
              case Fail(e) => ReadLiteral(ts) == Fail(e)
    ensures Starts(ts, DASH) ==> ReadLiteral(ts) == ReadNumber(true, ts[1..])
    ensures ts == [] || ts[0].kind !in {STRING, IDENTIFIER, STAR, PLACEHOLDER, L_PAREN, DASH} ==>
              ReadLiteral(ts) == ReadNumber(false, ts)
  {
    hide ReadScript;
  }

  lemma {:induction false} DottedPart(ts: seq<Token>)
    requires Starts(ts, DOT) || Starts(ts, COLON)
    ensures ReadPart(ts) == ReadAfterDot(ts[0].text == "..", ts[1..])
  {
    hide ReadAfterDot;
  }

  lemma {:induction false} NamePart(ts: seq<Token>)
    requires Starts(ts, VAR)
    ensures ts[0].kind == VAR && ReadPart(ts) == Got(Key(Plain(Text(ReadName(ts).0))), ReadName(ts).1)
  {
  }

  lemma {:induction false} PlainPart(ts: seq<Token>)
    ensures Starts(ts, IDENTIFIER) ==> ReadPart(ts) == Got(Key(Plain(Text(ts[0].text))), ts[1..])
    ensures Starts(ts, STAR) ==> ReadPart(ts) == Got(Wildcard, ts[1..])
  {
  }

  lemma {:induction false} NoPart(ts: seq<Token>)
    requires ts != [] && !Starts(ts, DOT) && !Starts(ts, COLON) && !Starts(ts, L_BRACKET) && !Starts(ts, VAR)
    requires !Starts(ts, IDENTIFIER) && !Starts(ts, STAR)
    ensures ReadPart(ts) == Fail(Unexpected(ts[0].kind))
  {
    hide ReadBracket, ReadAfterDot;
  }

  /** A result of the parser, next to what the grammar says. */
  ghost predicate Agrees<T>(r: Result<T>, left: seq<Token>, spec: Parsed<T>) {
    match spec
    case Got(v, rest) => r == Ok(v) && left == rest
    case Fail(e) => r == Err(e)
  }

  lemma {:induction false} Agreed<T>(v: T, rest: seq<Token>)
    ensures Agrees(Ok(v), rest, Got(v, rest))
  {
  }

  lemma {:induction false} Failed<T>(e: Error, rest: seq<Token>)
    ensures Agrees<T>(Err(e), rest, Fail(e))
  {
  }

  /** The closures of `parse`, around the index `i`. */
  class Parser {
    const tokens: seq<Token>
    var i: nat

    constructor (tokens: seq<Token>)
      ensures this.tokens == tokens && i == 0
    {
      this.tokens := tokens;
      i := 0;
    }

    function Curr(): Option<TokenType>
      reads this
    {
      if i < |tokens| then Some(tokens[i].kind) else None
    }

    method Match(kind: TokenType) returns (ok: bool)
      requires i <= |tokens|
      modifies this
      ensures i <= |tokens| && ok == Starts(tokens[old(i)..], kind)
      ensures i == if ok then old(i) + 1 else old(i)
      ensures ok ==> tokens[i..] == tokens[old(i)..][1..]
    {
      ok := Curr() == Some(kind);
      if ok {
        i := i + 1;
      }
    }

    method ParseNumber(negative: bool) returns (r: Result<Lit>)
      requires i <= |tokens|
      modifies this
      ensures old(i) <= i <= |tokens| && Agrees(r, tokens[i..], ReadNumber(negative, tokens[old(i)..]))
    {
      var found := Match(NUMBER);
      if found {
        match NatOf(tokens[i - 1].text) {
          case Some(n) => r := Ok(Num(if negative then 0 - n else n));
          case None => r := Err(BadNumber);
        }
      } else if negative {
        r := Err(BadNumber);
      } else {
        r := Ok(Missing);
      }
    }

    method ParseLiteral() returns (r: Result<Lit>)
      requires i <= |tokens|
      modifies this
      ensures old(i) <= i <= |tokens| && Agrees(r, tokens[i..], ReadLiteral(tokens[old(i)..]))
      decreases |tokens| - i, 1
    {
      LiteralCases(tokens[i..]);
      hide ReadScript, ReadNumber, ReadLiteral;
      var found := Match(STRING);
      if !found {
        found := Match(IDENTIFIER);
      }
      if found {
        return Ok(Text(tokens[i - 1].text));
      }
      found := Match(STAR);
      if found {
        return Ok(Wild);
      }
      found := Match(PLACEHOLDER);
      if !found {
        found := Match(L_PAREN);
      }
      if found {
        var script := tokens[i - 1].text == "(";
        r := ParseScript(script);
        return;
      }
      var negative := Match(DASH);
      r := ParseNumber(negative);
    }

    /** The rest of a script or filter, up to the closing bracket. */
    method ParseScript(script: bool) returns (r: Result<Lit>)
      requires i <= |tokens|
      modifies this
      ensures old(i) <= i <= |tokens|
      ensures match ReadScript(tokens[old(i)..])
        case Got(body, rest) =>
          if rest == [] then r == Err(IndexError)
          else r == Ok(if script then Script(body) else Filter(body)) && tokens[i..] == rest
        case Fail(e) => r == Err(e)
      decreases |tokens| - i, 4
    {
      hide ReadBracket, ReadScript, ReadLiteral, ReadSlice, ReadNumber, ReadMore, ReadPart, ReadParts;
      var start := i;
      ghost var ts := tokens[i..];
      while true
        invariant start <= i <= |tokens|
        invariant match ReadScript(ts)
          case Got(_, rest) => ReadScript(tokens[i..]).Got? && ReadScript(tokens[i..]).rest == rest
          case Fail(e) => ReadScript(tokens[i..]) == Fail(e)
        decreases |tokens| - i
      {
        hide ReadBracket, ReadScript, ReadLiteral, ReadSlice, ReadNumber, ReadMore, ReadPart, ReadParts;
        ghost var before := tokens[i..];
        var nested := Match(L_BRACKET);
        if nested {
          var thrownAway := ParseBracket();
          if thrownAway.Err? {
            ScriptFails(before);
            return Err(thrownAway.error);
          }
        }
        ScriptStep(before, tokens[i..]);
        if Curr() == Some(R_BRACKET) || Curr() == None {
          break;
        }
        assert tokens[i..][1..] == tokens[i + 1..];
        i := i + 1;
      }
      if i == |tokens| {
        return Err(IndexError);
      }
      assert ts[..|ts| - |tokens[i..]|] == tokens[start..i];
      r := Ok(if script then Script(tokens[start..i]) else Filter(tokens[start..i]));
    }

    method ParseSlice() returns (r: Result<Item>)
      requires i <= |tokens|
      modifies this
      ensures old(i) <= i <= |tokens| && Agrees(r, tokens[i..], ReadSlice(tokens[old(i)..]))
      decreases |tokens| - i, 2
    {
      var start := ParseLiteral();
      if start.Err? {
        return Err(start.error);
      }
      var colon := Match(COLON);
      if !colon {
        return Ok(Plain(start.value));
      }
      var end := ParseLiteral();
      if end.Err? {
        return Err(end.error);
      }
      colon := Match(COLON);
      if !colon {
        return Ok(Slice(start.value, end.value, None));
      }
      var step := ParseLiteral();
      r := match step
        case Ok(s) => Ok(Slice(start.value, end.value, Some(s)))
        case Err(e) => Err(e);
    }

    method ParseBracket() returns (r: Result<Part>)
      requires i <= |tokens|
      modifies this
      ensures old(i) <= i <= |tokens| && Agrees(r, tokens[i..], ReadBracket(tokens[old(i)..]))
      decreases |tokens| - i, 3
    {
      ghost var ts := tokens[i..];
      var first := ParseSlice();
      if first.Err? {
        return Err(first.error);
      }
      if first.value == Plain(Missing) {
        return Err(EmptySegment);
      }
      var indexes, literal := [first.value], first.value;
      ghost var more := ReadMore(tokens[i..], Items(indexes, literal));
      var comma := Match(COMMA);
      while comma
        invariant old(i) <= i <= |tokens| && indexes != [] && (comma ==> old(i) < i)
        invariant more ==
                    if comma then ReadMore([COMMA_TOKEN] + tokens[i..], Items(indexes, literal))
                    else ReadMore(tokens[i..], Items(indexes, literal))
        invariant !comma ==> !Starts(tokens[i..], COMMA)
        decreases |tokens| - i, comma
      {
        assert ([COMMA_TOKEN] + tokens[i..])[1..] == tokens[i..];
        var next := ParseSlice();
        if next.Err? {
          return Err(next.error);
        }
        literal := next.value;
        if Truthy(literal) {
          indexes := indexes + [literal];
        }
        comma := Match(COMMA);
      }
      var closed := Match(R_BRACKET);
      r := if closed then Ok(Node(Items(indexes, literal))) else Err(ExpectedBracket);
    }

    /** After a name has been matched: names in a row are merged. */
    method ParseVarText() returns (text: string)
      requires 0 < i <= |tokens| && tokens[i - 1].kind == VAR
      modifies this
      ensures old(i) <= i <= |tokens| && (text, tokens[i..]) == ReadName(tokens[old(i) - 1..])
    {
      ghost var ts := tokens[i - 1..];
      text := tokens[i - 1].text;
      assert ts[1..] == tokens[i..];
      var name := Match(VAR);
      while name
        invariant old(i) <= i <= |tokens| && (name ==> old(i) < i && tokens[i - 1].kind == VAR)
        invariant var from := if name then tokens[i - 1..] else tokens[i..];
          ReadName(ts) == (text + ReadName(from).0, ReadName(from).1)
        invariant !name ==> !Starts(tokens[i..], VAR)
        decreases |tokens| - i, name
      {
        assert tokens[i - 1..][1..] == tokens[i..];
        assert text + (tokens[i - 1].text + ReadName(tokens[i..]).0) == (text + tokens[i - 1].text) +
          ReadName(tokens[i..]).0;
        text := text + tokens[i - 1].text;
        name := Match(VAR);
      }
      assert text + "" == text;
    }

    /** After a dot or a colon. */
    method ParseAfterDot(recursive: bool) returns (r: Result<Part>)
      requires i <= |tokens|
      modifies this
      ensures old(i) <= i <= |tokens| && Agrees(r, tokens[i..], ReadAfterDot(recursive, tokens[old(i)..]))
    {
      var value := None;
      var found := Match(VAR);
      if found {
        assert tokens[i - 1..] == tokens[old(i)..];
        var text := ParseVarText();
        value := Some(Text(text));
      } else {
        found := Match(IDENTIFIER);
        if found {
          value := Some(Text(tokens[i - 1].text));
        } else {
          found := Match(STAR);
          if found {
            value := Some(Wild);
          }
        }
      }
      if recursive {
        r := Ok(Recursive(value));
      } else if value.Some? && value != Some(Text("")) {
        r := Ok(Key(Plain(value.value)));
      } else {
        r := Err(ExpectedKey);
      }
    }

    /** One pass of the loop of `parse`. */
    method ParsePart() returns (r: Result<Part>)
      requires i < |tokens|
      modifies this
      ensures old(i) <= i <= |tokens| && Agrees(r, tokens[i..], ReadPart(tokens[old(i)..]))
      ensures r.Ok? ==> old(i) < i
    {
      hide *;
      ghost var ts := tokens[i..];
      assert ts != [] && ts[0] == tokens[i];
      var found := Match(DOT);
      if !found {
        found := Match(COLON);
      }
      if found {
        DottedPart(ts);
        var recursive := tokens[i - 1].text == "..";
        r := ParseAfterDot(recursive);
        return;
      }
      found := Match(L_BRACKET);
      if found {
        BracketPart(ts);
        r := ParseBracket();
        return;
      }
      found := Match(VAR);
      if found {
        NamePart(ts);
        assert tokens[i - 1..] == ts && tokens[i - 1] == ts[0];
        var text := ParseVarText();
        Agreed(Key(Plain(Text(text))), tokens[i..]);
        return Ok(Key(Plain(Text(text))));
      }
      PlainPart(ts);
      found := Match(IDENTIFIER);
      if found {
        Agreed(Key(Plain(Text(tokens[i - 1].text))), tokens[i..]);
        return Ok(Key(Plain(Text(tokens[i - 1].text))));
      }
      found := Match(STAR);
      if found {
        Agreed(Wildcard, tokens[i..]);
        return Ok(Wildcard);
      }
      NoPart(ts);
      Failed<Part>(Unexpected(tokens[i].kind), tokens[i..]);
      r := Err(Unexpected(tokens[i].kind));
    }
  }

  lemma {:induction false} PartsStep(ps: seq<Part>, p: Part, ts: seq<Token>, rest: seq<Token>)
    requires ts != [] && ReadPart(ts) == Got(p, rest)
    ensures Prepend(ps, ReadParts(ts)) == Prepend(ps + [p], ReadParts(rest))
  {
    hide ReadPart;
    match ReadParts(rest) {
      case Ok(qs) => assert ps + ([p] + qs) == ps + [p] + qs;
      case Err(_) =>
    }
  }

  ghost function Prepend(ps: seq<Part>, r: Result<seq<Part>>): Result<seq<Part>> {
    match r
    case Ok(qs) => Ok(ps + qs)
    case Err(e) => Err(e)
  }

  /** `parse`. It ends on every list of tokens, with a path or an error, and reads what the grammar says. */
  method Parse(tokens: seq<Token>) returns (r: Result<seq<Part>>)
    ensures r == ReadPath(tokens)
  {
    hide ReadPart;
    var parser := new Parser(tokens);
    assert parser.tokens[parser.i..] == tokens;
    var dollar := parser.Match(DOLLAR);
    var expressions := [Root];
    while parser.i < |tokens|
      invariant parser.tokens == tokens && parser.i <= |tokens|
      invariant fresh(parser)
      invariant ReadPath(tokens) == Prepend(expressions, ReadParts(parser.tokens[parser.i..]))
      decreases |tokens| - parser.i
    {
      hide ReadPart;
      ghost var before := parser.tokens[parser.i..];
      var part := parser.ParsePart();
      if part.Err? {
        return Err(part.error);
      }
      PartsStep(expressions, part.value, before, parser.tokens[parser.i..]);
      expressions := expressions + [part.value];
    }
    assert parser.tokens[parser.i..] == [];
    r := Ok(expressions);
    assert expressions + [] == expressions;
  }

  lemma {:induction false} ScriptStep(ts: seq<Token>, inner: seq<Token>)
    requires
               if Starts(ts, L_BRACKET) then ReadBracket(ts[1..]).Got? && inner == ReadBracket(ts[1..]).rest
               else inner == ts
    ensures |inner| <= |ts|
    ensures inner == [] || inner[0].kind == R_BRACKET ==> ReadScript(ts).Got? && ReadScript(ts).rest == inner
    ensures inner != [] && inner[0].kind != R_BRACKET ==>
              match ReadScript(inner[1..])
              case Fail(e) => ReadScript(ts) == Fail(e)
              case Got(_, rest) => ReadScript(ts).Got? && ReadScript(ts).rest == rest
  {
    hide ReadBracket;
  }

  lemma {:induction false} ScriptFails(ts: seq<Token>)
    requires Starts(ts, L_BRACKET) && ReadBracket(ts[1..]).Fail?
    ensures ReadScript(ts) == Fail(ReadBracket(ts[1..]).error)
  {
    hide ReadBracket;
  }
}

/** agent/config/jsonc.go, parseJSONC up to the decoder: what the two passes make of a JSONC document. */
module JsoncDocuments {
  import opened GoStrings
  import opened Jsonc
  import JsonArray

  // ----- From JSONC to JSON -----

  /** White space or a comment; a line comment has its newline, unless it is the last one of a file (`LastLine`). */
  datatype Piece = Space(c: char) | Line(text: string) | Block(text: string)

  /** A value as it stands in a JSONC file, with the white space and comments in it: a JSON value (section 2 of
      RFC 8259; its strings are those of section 7), but for the comments and a comma behind the last item. */
  datatype Value =
    | Scalar(text: string)
    | Str(chars: seq<JsonArray.StringChar>)
    | Empty(isObject: bool, inside: seq<Piece>)
    | Filled(isObject: bool, items: Items, trailing: Option<seq<Piece>>)

  datatype Items = One(item: Item) | More(item: Item, rest: Items)

  /** An item of an array; in an object with its key in front. */
  datatype Item = Item(before: seq<Piece>, key: seq<JsonArray.StringChar>, afterKey: seq<Piece>,
                       beforeValue: seq<Piece>, value: Value, after: seq<Piece>)

  predicate GoodPiece(p: Piece) {
    match p
    case Space(c) => c == ' ' || c == '\t' || c == '\n' || c == '\r'
    case Line(text) => forall i :: 0 <= i < |text| ==> text[i] != '\n'
    case Block(text) => forall i :: 0 <= i < |text| - 1 ==> !(text[i] == '*' && text[i + 1] == '/')
  }

  predicate GoodPieces(ps: seq<Piece>) {
    forall i :: 0 <= i < |ps| ==> GoodPiece(ps[i])
  }

  predicate Chars(chars: seq<JsonArray.StringChar>) {
    forall i :: 0 <= i < |chars| ==> JsonArray.WellFormedChar(chars[i])
  }

  predicate IsScalarByte(c: char) {
    '0' <= c <= '9' || 'a' <= c <= 'z' || 'A' <= c <= 'Z' || c == '+' || c == '-' || c == '.'
  }

  predicate Good(v: Value)
    decreases v
  {
    match v
    case Scalar(text) => text != "" && forall i :: 0 <= i < |text| ==> IsScalarByte(text[i])
    case Str(chars) => Chars(chars)
    case Empty(_, inside) => GoodPieces(inside)
    case Filled(isObject, items, trailing) =>
      GoodItems(isObject, items) && (trailing.Some? ==> GoodPieces(trailing.value))
  }

  predicate GoodItems(isObject: bool, items: Items)
    decreases items
  {
    GoodItem(isObject, items.item) && (items.More? ==> GoodItems(isObject, items.rest))
  }

  predicate GoodItem(isObject: bool, i: Item)
    decreases i
  {
    && GoodPieces(i.before) && GoodPieces(i.after) && Good(i.value)
    && (isObject ==> Chars(i.key) && GoodPieces(i.afterKey) && GoodPieces(i.beforeValue))
  }

  /** A text in full, without its comments, and also without its trailing commas. */
  datatype Stages = Stages(full: string, bare: string, strict: string)

  function Cat(a: Stages, b: Stages): Stages {
    Stages(a.full + b.full, a.bare + b.bare, a.strict + b.strict)
  }

  function Same(t: string): Stages {
    Stages(t, t, t)
  }

  function Quote(chars: seq<JsonArray.StringChar>): Stages {
    Cat(Same("\""), Cat(Same(JsonArray.CharsText(chars)), Same("\"")))
  }

  /** A line comment goes without its newline, a block comment goes wholly. */
  function PieceStages(p: Piece): Stages {
    match p
    case Space(c) => Same([c])
    case Line(text) => Stages("//" + (text + "\n"), "\n", "\n")
    case Block(text) => Stages("/*" + (text + "*/"), "", "")
  }

  function Pieces(ps: seq<Piece>): Stages {
    if ps == [] then Same("") else Cat(PieceStages(ps[0]), Pieces(ps[1..]))
  }

  function OpenOf(isObject: bool): Stages {
    Same(if isObject then "{" else "[")
  }

  function CloseOf(isObject: bool): Stages {
    Same(if isObject then "}" else "]")
  }

  const COMMA := Stages(",", ",", ",")
  const TRAILING_COMMA := Stages(",", ",", "")

  function TrailingStages(trailing: Option<seq<Piece>>): Stages {
    if trailing.Some? then Cat(TRAILING_COMMA, Pieces(trailing.value)) else Same("")
  }

  function Render(v: Value): Stages
    decreases v
  {
    match v
    case Scalar(text) => Same(text)
    case Str(chars) => Quote(chars)
    case Empty(isObject, inside) => Cat(OpenOf(isObject), Cat(Pieces(inside), CloseOf(isObject)))
    case Filled(isObject, items, trailing) =>
      Cat(OpenOf(isObject), Cat(RenderItems(isObject, items), Cat(TrailingStages(trailing), CloseOf(isObject))))
  }

  function RenderItems(isObject: bool, items: Items): Stages
    decreases items
  {
    if items.One? then RenderItem(isObject, items.item)
    else Cat(RenderItem(isObject, items.item), Cat(COMMA, RenderItems(isObject, items.rest)))
  }

  function Key(i: Item): Stages {
    Cat(Quote(i.key), Cat(Pieces(i.afterKey), Cat(Same(":"), Pieces(i.beforeValue))))
  }

  function RenderItem(isObject: bool, i: Item): Stages
    decreases i
  {
    Cat(Pieces(i.before), Cat(if isObject then Key(i) else Same(""), Cat(Render(i.value), Pieces(i.after))))
  }

  // ----- Both passes, text by text -----

  /** Read from mode `m`, with `s` behind it, the full text becomes the bare one in the first pass and the bare
      one the strict one in the second, and `s` is read from mode `next`. */
  ghost predicate Becomes(t: Stages, m: Mode, next: Mode, s: Stages) {
    && Strip(t.full + s.full, m) == t.bare + Strip(s.full, next)
    && Commas(t.bare + s.bare, m) == t.strict + Commas(s.bare, next)
  }

  lemma BecomesJoin(a: Stages, b: Stages, m: Mode, mid: Mode, next: Mode, s: Stages)
    requires Becomes(a, m, mid, Cat(b, s)) && Becomes(b, mid, next, s)
    ensures Becomes(Cat(a, b), m, next, s)
  {
    Assoc(a.full, b.full, s.full);
    Assoc(a.bare, b.bare, s.bare);
    Assoc(a.bare, b.bare, Strip(s.full, next));
    Assoc(a.strict, b.strict, Commas(s.bare, next));
  }

  lemma NothingBecomes(m: Mode, s: Stages)
    ensures Becomes(Same(""), m, m, s)
  {
    assert forall x: string :: "" + x == x;
  }

  lemma ByteBecomes(c: char, m: Mode, s: Stages)
    requires m == Code || m == InString || m == Escaped
    requires m == Code ==> c != '/' && (c == ',' ==> !ClosesNext(s.bare))
    ensures Becomes(Same([c]), m, Next(m, c), s)
  {
    hide ClosesNext;
    assert ([c] + s.full)[1..] == s.full && ([c] + s.bare)[1..] == s.bare;
  }

  lemma {:induction false} PlainBecomes(t: string, s: Stages)
    requires forall i :: 0 <= i < |t| ==> t[i] != '"' && t[i] != '/' && t[i] != ','
    ensures Becomes(Same(t), Code, Code, s)
    decreases |t|
  {
    hide Becomes;
    if t == "" {
      NothingBecomes(Code, s);
    } else {
      PlainBecomes(t[1..], s);
      ByteBecomes(t[0], Code, Cat(Same(t[1..]), s));
      assert [t[0]] + t[1..] == t;
      BecomesJoin(Same([t[0]]), Same(t[1..]), Code, Code, Code, s);
    }
  }

  lemma {:induction false} CharsBecome(chars: seq<JsonArray.StringChar>, s: Stages)
    requires Chars(chars)
    ensures Becomes(Same(JsonArray.CharsText(chars)), InString, InString, s)
    decreases |chars|
  {
    hide Becomes, Chars;
    if chars == [] {
      NothingBecomes(InString, s);
    } else {
      var c, rest := JsonArray.CharText(chars[0]), JsonArray.CharsText(chars[1..]);
      CharsTail(chars);
      CharsBecome(chars[1..], s);
      CharBecomes(chars[0], Cat(Same(rest), s));
      BecomesJoin(Same(c), Same(rest), InString, InString, InString, s);
    }
  }

  lemma CharsTail(chars: seq<JsonArray.StringChar>)
    requires Chars(chars) && chars != []
    ensures JsonArray.WellFormedChar(chars[0]) && Chars(chars[1..])
  {
  }

  lemma CharBecomes(c: JsonArray.StringChar, s: Stages)
    requires JsonArray.WellFormedChar(c)
    ensures Becomes(Same(JsonArray.CharText(c)), InString, InString, s)
  {
    hide Becomes;
    if c.Raw? {
      ByteBecomes(c.c, InString, s);
    } else {
      ByteBecomes('\\', InString, Cat(Same([c.c]), s));
      ByteBecomes(c.c, Escaped, s);
      BecomesJoin(Same(['\\']), Same([c.c]), InString, Escaped, InString, s);
      assert JsonArray.CharText(c) == ['\\'] + [c.c];
    }
  }

  lemma QuoteBecomes(chars: seq<JsonArray.StringChar>, s: Stages)
    requires Chars(chars)
    ensures Becomes(Quote(chars), Code, Code, s)
  {
    hide Becomes, Chars;
    var q, t := Same("\""), Same(JsonArray.CharsText(chars));
    ByteBecomes('"', InString, s);
    CharsBecome(chars, Cat(q, s));
    BecomesJoin(t, q, InString, InString, Code, s);
    ByteBecomes('"', Code, Cat(Cat(t, q), s));
    BecomesJoin(q, Cat(t, q), Code, InString, Code, s);
  }

  lemma {:induction false} LineEnds(text: string, s: string)
    requires forall i :: 0 <= i < |text| ==> text[i] != '\n'
    ensures LineRest(text + ("\n" + s)) == |text|
    decreases |text|
  {
    var t := text + ("\n" + s);
    if text != "" {
      assert t[1..] == text[1..] + ("\n" + s);
      LineEnds(text[1..], s);
    }
  }

  lemma {:induction false} BlockEnds(text: string, s: string)
    requires forall i :: 0 <= i < |text| - 1 ==> !(text[i] == '*' && text[i + 1] == '/')
    ensures BlockRest(text + ("*/" + s)) == |text| + 2
    decreases |text|
  {
    var t := text + ("*/" + s);
    if text != "" {
      assert t[1..] == text[1..] + ("*/" + s);
      assert t[1] == if |text| > 1 then text[1] else '*';
      BlockEnds(text[1..], s);
    } else {
      assert t == "*/" + s;
    }
  }

  lemma LineBecomes(text: string, s: Stages)
    requires forall i :: 0 <= i < |text| ==> text[i] != '\n'
    ensures Becomes(PieceStages(Line(text)), Code, Code, s)
  {
    hide LineRest, Strip;
    var rest := text + ("\n" + s.full);
    var t := PieceStages(Line(text)).full + s.full;
    assert t == "//" + rest;
    OpensComment(t, rest);
    LineEnds(text, s.full);
    StripLine(rest);
    assert rest[|text|..] == "\n" + s.full;
    ByteBecomes('\n', Code, s);
  }

  lemma BlockBecomes(text: string, s: Stages)
    requires forall i :: 0 <= i < |text| - 1 ==> !(text[i] == '*' && text[i + 1] == '/')
    ensures Becomes(PieceStages(Block(text)), Code, Code, s)
  {
    hide BlockRest, Strip;
    var rest := text + ("*/" + s.full);
    var t := PieceStages(Block(text)).full + s.full;
    assert t == "/*" + rest;
    OpensComment(t, rest);
    BlockEnds(text, s.full);
    StripBlock(rest);
    assert rest[|text| + 2..] == s.full;
    assert forall x: string :: "" + x == x;
  }

  lemma OpensComment(t: string, rest: string)
    requires t == "//" + rest || t == "/*" + rest
    ensures Strip(t, Code) == Strip(rest, if t[1] == '/' then LineComment else BlockComment)
  {
    assert t[2..] == rest;
  }

  lemma {:induction false} PiecesBecome(ps: seq<Piece>, s: Stages)
    requires GoodPieces(ps)
    ensures Becomes(Pieces(ps), Code, Code, s)
    decreases |ps|
  {
    hide Becomes, PieceStages;
    if ps == [] {
      NothingBecomes(Code, s);
    } else {
      assert GoodPiece(ps[0]);
      PiecesBecome(ps[1..], s);
      var rest := Cat(Pieces(ps[1..]), s);
      match ps[0] {
        case Space(c) => SpaceBecomes(c, rest);
        case Line(text) => LineBecomes(text, rest);
        case Block(text) => BlockBecomes(text, rest);
      }
      BecomesJoin(PieceStages(ps[0]), Pieces(ps[1..]), Code, Code, Code, s);
    }
  }

  lemma SpaceBecomes(c: char, s: Stages)
    requires JsonArray.IsWhitespaceByte(c)
    ensures Becomes(PieceStages(Space(c)), Code, Code, s)
  {
    ByteBecomes(c, Code, s);
  }

  // ----- What a comma looks ahead to -----

  predicate Blank(s: string) {
    forall i :: 0 <= i < |s| ==> JsonArray.IsWhitespaceByte(s[i])
  }

  lemma {:induction false} BareIsBlank(ps: seq<Piece>)
    requires GoodPieces(ps)
    ensures Blank(Pieces(ps).bare)
    decreases |ps|
  {
    if ps != [] {
      assert GoodPiece(ps[0]);
      BareIsBlank(ps[1..]);
    }
  }

  lemma {:induction false} SkipsBlank(b: string, s: string)
    requires Blank(b)
    ensures SkipBlanks(b + s) == SkipBlanks(s)
    decreases |b|
  {
    hide JsonArray.IsWhitespaceByte;
    if b == "" {
      assert b + s == s;
    } else {
      assert (b + s)[1..] == b[1..] + s;
      SkipsBlank(b[1..], s);
    }
  }

  /** Behind an item's comma the next thing is an item, which does not start with a closing bracket. */
  lemma NoCloserNext(isObject: bool, i: Item, s: string)
    requires GoodItem(isObject, i)
    ensures !ClosesNext(RenderItem(isObject, i).bare + s)
  {
    hide JsonArray.IsWhitespaceByte, Chars, Good, Render, JsonArray.CharsText, Pieces, GoodPieces, Blank;
    var t := Cat(if isObject then Key(i) else Same(""), Cat(Render(i.value), Pieces(i.after))).bare + s;
    BareIsBlank(i.before);
    SkipsBlank(Pieces(i.before).bare, t);
    assert RenderItem(isObject, i).bare + s == Pieces(i.before).bare + t;
    FirstByte(i.value);
    assert t[0] == if isObject then '"' else Render(i.value).bare[0];
    NotBlank(t[0]);
  }

  lemma NotBlank(c: char)
    requires c == '"' || c == '{' || c == '[' || IsScalarByte(c)
    ensures !JsonArray.IsWhitespaceByte(c) && !IsCloser(c)
  {
  }

  lemma FirstByte(v: Value)
    requires Good(v)
    ensures Render(v).bare != "" && var c := Render(v).bare[0]; c == '"' || c == '{' || c == '[' || IsScalarByte(c)
  {
    hide GoodItems, RenderItems, IsScalarByte, JsonArray.CharsText, Pieces, TrailingStages;
  }

  /** Behind a trailing comma there is a closing bracket, so the comma goes. */
  lemma TrailingBecomes(isObject: bool, trailing: Option<seq<Piece>>, s: Stages)
    requires trailing.Some? ==> GoodPieces(trailing.value)
    ensures Becomes(TrailingStages(trailing), Code, Code, Cat(CloseOf(isObject), s))
  {
    hide Becomes, GoodPieces, Pieces, Blank;
    var close := Cat(CloseOf(isObject), s);
    if trailing.None? {
      NothingBecomes(Code, close);
    } else {
      var ps := trailing.value;
      PiecesBecome(ps, close);
      BareIsBlank(ps);
      SkipsBlank(Pieces(ps).bare, close.bare);
      NotSpace(isObject, s);
      CommaGoes(Cat(Pieces(ps), close));
      BecomesJoin(TRAILING_COMMA, Pieces(ps), Code, Code, Code, close);
    }
  }

  lemma NotSpace(isObject: bool, s: Stages)
    ensures var t := Cat(CloseOf(isObject), s).bare; t != "" && SkipBlanks(t) == t && IsCloser(t[0])
  {
  }

  lemma CommaGoes(s: Stages)
    requires ClosesNext(s.bare)
    ensures Becomes(TRAILING_COMMA, Code, Code, s)
  {
    hide ClosesNext;
    assert ("," + s.full)[1..] == s.full && ("," + s.bare)[1..] == s.bare;
    assert forall x: string :: "" + x == x;
  }

  // ----- Values -----

  lemma {:induction false} ValueBecomes(v: Value, s: Stages)
    requires Good(v)
    ensures Becomes(Render(v), Code, Code, s)
    decreases v
  {
    hide Becomes, GoodPieces, Chars, JsonArray.CharsText, Pieces, TrailingStages, Cat;
    match v
    case Scalar(text) =>
      PlainBecomes(text, s);
    case Str(chars) =>
      QuoteBecomes(chars, s);
    case Empty(isObject, inside) =>
      PiecesBecome(inside, Cat(CloseOf(isObject), s));
      BracketsBecome(isObject, Pieces(inside), s);
    case Filled(isObject, items, trailing) =>
      var close := CloseOf(isObject);
      TrailingBecomes(isObject, trailing, s);
      ItemsBecome(isObject, items, Cat(TrailingStages(trailing), Cat(close, s)));
      BecomesJoin(RenderItems(isObject, items), TrailingStages(trailing), Code, Code, Code, Cat(close, s));
      BracketsBecome(isObject, Cat(RenderItems(isObject, items), TrailingStages(trailing)), s);
      CatAssoc(RenderItems(isObject, items), TrailingStages(trailing), close);
  }

  lemma CatAssoc(a: Stages, b: Stages, c: Stages)
    ensures Cat(Cat(a, b), c) == Cat(a, Cat(b, c))
  {
    Assoc(a.full, b.full, c.full);
    Assoc(a.bare, b.bare, c.bare);
    Assoc(a.strict, b.strict, c.strict);
  }

  lemma BracketsBecome(isObject: bool, t: Stages, s: Stages)
    requires Becomes(t, Code, Code, Cat(CloseOf(isObject), s))
    ensures Becomes(Cat(OpenOf(isObject), Cat(t, CloseOf(isObject))), Code, Code, s)
  {
    hide Becomes, Cat;
    var z := if isObject then "}" else "]";
    PlainBecomes(z, s);
    BecomesJoin(t, Same(z), Code, Code, Code, s);
    var a := if isObject then "{" else "[";
    PlainBecomes(a, Cat(Cat(t, Same(z)), s));
    BecomesJoin(Same(a), Cat(t, Same(z)), Code, Code, Code, s);
  }

  lemma {:induction false} ItemsBecome(isObject: bool, items: Items, s: Stages)
    requires GoodItems(isObject, items)
    ensures Becomes(RenderItems(isObject, items), Code, Code, s)
    decreases items, 1
  {
    hide Becomes, GoodItem, RenderItem, ClosesNext, Cat;
    var t := RenderItem(isObject, items.item);
    if items.One? {
      ItemBecomes(isObject, items.item, s);
    } else {
      var rest := RenderItems(isObject, items.rest);
      ItemsBecome(isObject, items.rest, s);
      NextItem(isObject, items.rest, s);
      ByteBecomes(',', Code, Cat(rest, s));
      BecomesJoin(COMMA, rest, Code, Code, Code, s);
      ItemBecomes(isObject, items.item, Cat(Cat(COMMA, rest), s));
      BecomesJoin(t, Cat(COMMA, rest), Code, Code, Code, s);
    }
  }

  lemma NextItem(isObject: bool, items: Items, s: Stages)
    requires GoodItems(isObject, items)
    ensures !ClosesNext(Cat(RenderItems(isObject, items), s).bare)
  {
    hide ClosesNext, RenderItem;
    if items.One? {
      NoCloserNext(isObject, items.item, s.bare);
    } else {
      var more := "," + RenderItems(isObject, items.rest).bare;
      NoCloserNext(isObject, items.item, more + s.bare);
      Assoc(RenderItem(isObject, items.item).bare, more, s.bare);
    }
  }

  lemma {:induction false} ItemBecomes(isObject: bool, i: Item, s: Stages)
    requires GoodItem(isObject, i)
    ensures Becomes(RenderItem(isObject, i), Code, Code, s)
    decreases i, 0
  {
    hide Becomes, GoodPieces, Chars, Good, Render, Key, Pieces, Cat;
    PiecesBecome(i.after, s);
    ValueBecomes(i.value, Cat(Pieces(i.after), s));
    BecomesJoin(Render(i.value), Pieces(i.after), Code, Code, Code, s);
    var t := Cat(Render(i.value), Pieces(i.after));
    var k := if isObject then Key(i) else Same("");
    if isObject {
      KeyBecomes(i, Cat(t, s));
    } else {
      NothingBecomes(Code, Cat(t, s));
    }
    BecomesJoin(k, t, Code, Code, Code, s);
    PiecesBecome(i.before, Cat(Cat(k, t), s));
    BecomesJoin(Pieces(i.before), Cat(k, t), Code, Code, Code, s);
  }

  lemma KeyBecomes(i: Item, s: Stages)
    requires Chars(i.key) && GoodPieces(i.afterKey) && GoodPieces(i.beforeValue)
    ensures Becomes(Key(i), Code, Code, s)
  {
    hide Becomes, Quote, GoodPieces, Chars, Pieces, Cat;
    var a, b, c := Pieces(i.afterKey), Same(":"), Pieces(i.beforeValue);
    PiecesBecome(i.beforeValue, s);
    PlainBecomes(":", Cat(c, s));
    BecomesJoin(b, c, Code, Code, Code, s);
    PiecesBecome(i.afterKey, Cat(Cat(b, c), s));
    BecomesJoin(a, Cat(b, c), Code, Code, Code, s);
    QuoteBecomes(i.key, Cat(Cat(a, Cat(b, c)), s));
    BecomesJoin(Quote(i.key), Cat(a, Cat(b, c)), Code, Code, Code, s);
  }

  /** A line comment that the end of the file ends. */
  function LastLine(last: Option<string>): Stages {
    if last.Some? then Stages("//" + last.value, "", "") else Same("")
  }

  predicate GoodLastLine(last: Option<string>) {
    last.Some? ==> GoodPiece(Line(last.value))
  }

  /** A file: a value with what stands around it. */
  function Document(before: seq<Piece>, v: Value, after: seq<Piece>, last: Option<string>): Stages {
    Cat(Cat(Pieces(before), Cat(Render(v), Pieces(after))), LastLine(last))
  }

  /** parseJSONC's two passes take the text of any JSONC document to that document without comments, and then to it
      without trailing commas; nothing else changes. */
  lemma JsoncBecomesJson(before: seq<Piece>, v: Value, after: seq<Piece>, last: Option<string>)
    requires GoodPieces(before) && Good(v) && GoodPieces(after) && GoodLastLine(last)
    ensures var d := Document(before, v, after, last);
            Strip(d.full, Code) == d.bare && Commas(d.bare, Code) == d.strict
  {
    hide Becomes, GoodPieces, Good, Render, Pieces, Cat, LastLine;
    var s := LastLine(last);
    PiecesBecome(after, s);
    ValueBecomes(v, Cat(Pieces(after), s));
    BecomesJoin(Render(v), Pieces(after), Code, Code, Code, s);
    var t := Cat(Render(v), Pieces(after));
    PiecesBecome(before, Cat(t, s));
    BecomesJoin(Pieces(before), t, Code, Code, Code, s);
    AtTheEnd(Cat(Pieces(before), t), last);
  }

  lemma AtTheEnd(t: Stages, last: Option<string>)
    requires GoodLastLine(last) && Becomes(t, Code, Code, LastLine(last))
    ensures var d := Cat(t, LastLine(last)); Strip(d.full, Code) == d.bare && Commas(d.bare, Code) == d.strict
  {
    hide Strip, Commas;
    EmptyStrip(Code);
    EmptyCommas(Code);
    if last.Some? {
      OpensComment("//" + last.value, last.value);
      StripLine(last.value);
      LineRunsOut(last.value);
      assert last.value[|last.value|..] == "";
    }
  }

  lemma {:induction false} LineRunsOut(text: string)
    requires forall i :: 0 <= i < |text| ==> text[i] != '\n'
    ensures LineRest(text) == |text|
    decreases |text|
  {
    if text != "" {
      LineRunsOut(text[1..]);
    }
  }

  // ----- The JSON that comes out -----

  /** The same trivia without comments: a newline is left of a line comment. */
  function Spaces(ps: seq<Piece>): seq<Piece> {
    if ps == [] then []
    else (match ps[0] case Space(c) => [ps[0]] case Line(_) => [Space('\n')] case Block(_) => []) + Spaces(ps[1..])
  }

  /** The same value as plain JSON. */
  function Plain(v: Value): Value
    decreases v
  {
    match v
    case Scalar(_) => v
    case Str(_) => v
    case Empty(isObject, inside) => Empty(isObject, Spaces(inside))
    case Filled(isObject, items, trailing) =>
      Filled(isObject, PlainItems(items, if trailing.Some? then Spaces(trailing.value) else []), None)
  }

  /** The white space behind a trailing comma is then white space behind the last item. */
  function PlainItems(items: Items, last: seq<Piece>): Items
    decreases items
  {
    if items.One? then One(PlainItem(items.item, last))
    else More(PlainItem(items.item, []), PlainItems(items.rest, last))
  }

  function PlainItem(i: Item, more: seq<Piece>): Item
    decreases i
  {
    Item(Spaces(i.before), i.key, Spaces(i.afterKey), Spaces(i.beforeValue), Plain(i.value), Spaces(i.after) + more)
  }

  lemma {:induction false} SpacesAre(ps: seq<Piece>)
    ensures Pieces(Spaces(ps)) == Same(Pieces(ps).strict)
    ensures GoodPieces(ps) ==> GoodPieces(Spaces(ps))
    decreases |ps|
  {
    hide GoodPiece;
    if ps != [] {
      SpacesAre(ps[1..]);
      var one := match ps[0] case Space(c) => [ps[0]] case Line(_) => [Space('\n')] case Block(_) => [];
      PiecesConcat(one, Spaces(ps[1..]));
      assert Pieces(one) == Same(PieceStages(ps[0]).strict) by { OnePiece(ps[0]); }
      assert GoodPiece(Space('\n')) by { NewlineIsGood(); }
      assert GoodPieces(ps) ==> GoodPiece(ps[0]) && GoodPieces(ps[1..]);
    }
  }

  lemma NewlineIsGood()
    ensures GoodPiece(Space('\n'))
  {
  }

  lemma OnePiece(p: Piece)
    ensures Pieces(match p case Space(c) => [p] case Line(_) => [Space('\n')] case Block(_) => [])
            == Same(PieceStages(p).strict)
  {
    if !p.Block? {
      var q := if p.Space? then p else Space('\n');
      assert [q][1..] == [];
      assert Pieces([q]) == Cat(PieceStages(q), Same(""));
    }
  }

  lemma {:induction false} PiecesConcat(a: seq<Piece>, b: seq<Piece>)
    ensures Pieces(a + b) == Cat(Pieces(a), Pieces(b))
    decreases |a|
  {
    hide PieceStages;
    if a == [] {
      assert a + b == b;
      assert forall x: string :: "" + x == x;
    } else {
      assert (a + b)[1..] == a[1..] + b;
      PiecesConcat(a[1..], b);
      CatAssoc(PieceStages(a[0]), Pieces(a[1..]), Pieces(b));
    }
  }

  lemma {:induction false} PlainValue(v: Value)
    ensures Render(Plain(v)) == Same(Render(v).strict)
    decreases v
  {
    hide Pieces, Spaces, JsonArray.CharsText;
    match v
    case Scalar(_) =>
    case Str(chars) =>
    case Empty(isObject, inside) =>
      SpacesAre(inside);
    case Filled(isObject, items, trailing) =>
      var last := if trailing.Some? then Spaces(trailing.value) else [];
      var t := TrailingStages(trailing).strict;
      TrailingIs(trailing);
      PlainItemsAre(isObject, items, last, t);
      RegroupFilled(if isObject then "{" else "[", RenderItems(isObject, items).strict, t,
                    if isObject then "}" else "]");
  }

  lemma TrailingIs(trailing: Option<seq<Piece>>)
    ensures Pieces(if trailing.Some? then Spaces(trailing.value) else []) == Same(TrailingStages(trailing).strict)
  {
    if trailing.Some? {
      SpacesAre(trailing.value);
      assert "" + Pieces(trailing.value).strict == Pieces(trailing.value).strict;
    }
  }

  lemma RegroupFilled(a: string, b: string, c: string, d: string)
    ensures a + ((b + c) + ("" + d)) == a + (b + (c + d))
  {
    Assoc(b, c, d);
    assert "" + d == d;
  }

  lemma {:induction false} PlainItemsAre(isObject: bool, items: Items, last: seq<Piece>, t: string)
    requires Pieces(last) == Same(t)
    ensures RenderItems(isObject, PlainItems(items, last)) == Same(RenderItems(isObject, items).strict + t)
    decreases items, 1
  {
    hide RenderItem, Pieces, PlainItem;
    if items.One? {
      PlainItemIs(isObject, items.item, last, t);
    } else {
      NoPieces();
      PlainItemIs(isObject, items.item, [], "");
      PlainItemsAre(isObject, items.rest, last, t);
      var a, b := RenderItem(isObject, items.item).strict, RenderItems(isObject, items.rest).strict;
      assert a + "" == a;
      assert a + ("," + (b + t)) == (a + ("," + b)) + t;
    }
  }

  lemma NoPieces()
    ensures Pieces([]) == Same("")
  {
  }

  lemma {:induction false} PlainItemIs(isObject: bool, i: Item, more: seq<Piece>, t: string)
    requires Pieces(more) == Same(t)
    ensures RenderItem(isObject, PlainItem(i, more)) == Same(RenderItem(isObject, i).strict + t)
    decreases i, 0
  {
    hide Pieces, Render, Quote, Plain;
    PlainValue(i.value);
    SpacesAre(i.before);
    SpacesAre(i.after);
    SpacesAre(i.afterKey);
    SpacesAre(i.beforeValue);
    PiecesConcat(Spaces(i.after), more);
    QuoteIsSame(i.key);
    var k := if isObject then Key(i).strict else "";
    var b, v, e := Pieces(i.before).strict, Render(i.value).strict, Pieces(i.after).strict;
    assert b + (k + (v + (e + t))) == (b + (k + (v + e))) + t;
  }

  lemma QuoteIsSame(chars: seq<JsonArray.StringChar>)
    ensures Quote(chars) == Same(Quote(chars).strict)
  {
  }

  // ----- Plain JSON, and what it means -----

  predicate AllSpaces(ps: seq<Piece>) {
    forall i :: 0 <= i < |ps| ==> ps[i].Space?
  }

  /** A JSON text: no comments, no trailing commas. */
  predicate IsPlain(v: Value)
    decreases v
  {
    match v
    case Scalar(_) => true
    case Str(_) => true
    case Empty(_, inside) => AllSpaces(inside)
    case Filled(_, items, trailing) => trailing.None? && ArePlain(items)
  }

  predicate ArePlain(items: Items)
    decreases items
  {
    var i := items.item;
    && AllSpaces(i.before) && AllSpaces(i.afterKey) && AllSpaces(i.beforeValue) && IsPlain(i.value)
    && AllSpaces(i.after)
    && (items.More? ==> ArePlain(items.rest))
  }

  lemma {:induction false} SpacesStay(ps: seq<Piece>)
    ensures AllSpaces(Spaces(ps))
    ensures AllSpaces(ps) ==> Spaces(ps) == ps
    decreases |ps|
  {
    if ps != [] {
      SpacesStay(ps[1..]);
      assert ps == [ps[0]] + ps[1..];
    }
  }

  lemma {:induction false} PlainIsPlain(v: Value)
    ensures IsPlain(Plain(v)) && (IsPlain(v) ==> Plain(v) == v)
    decreases v
  {
    hide AllSpaces, Spaces;
    match v
    case Scalar(_) =>
    case Str(_) =>
    case Empty(_, inside) =>
      SpacesStay(inside);
    case Filled(_, items, trailing) =>
      NoSpaces();
      if trailing.Some? {
        SpacesStay(trailing.value);
      }
      PlainItemsArePlain(items, if trailing.Some? then Spaces(trailing.value) else []);
  }

  lemma NoSpaces()
    ensures AllSpaces([])
  {
  }

  lemma {:induction false} PlainItemsArePlain(items: Items, last: seq<Piece>)
    requires AllSpaces(last)
    ensures ArePlain(PlainItems(items, last)) && (ArePlain(items) && last == [] ==> PlainItems(items, last) == items)
    decreases items
  {
    hide Spaces, IsPlain, Plain;
    var i := items.item;
    SpacesStay(i.before);
    SpacesStay(i.afterKey);
    SpacesStay(i.beforeValue);
    SpacesStay(i.after);
    PlainIsPlain(i.value);
    assert Spaces(i.after) + [] == Spaces(i.after);
    if items.More? {
      PlainItemsArePlain(items.rest, last);
    }
  }

  /** The value itself, without what stands around it. */
  function Meaning(v: Value): Value
    decreases v
  {
    match v
    case Scalar(_) => v
    case Str(_) => v
    case Empty(isObject, _) => Empty(isObject, [])
    case Filled(isObject, items, _) => Filled(isObject, MeaningOf(items), None)
  }

  function MeaningOf(items: Items): Items
    decreases items
  {
    var i := Item([], items.item.key, [], [], Meaning(items.item.value), []);
    if items.One? then One(i) else More(i, MeaningOf(items.rest))
  }

  lemma {:induction false} PlainMeansTheSame(v: Value)
    ensures Meaning(Plain(v)) == Meaning(v)
    decreases v
  {
    if v.Filled? {
      PlainItemsMeanTheSame(v.items, if v.trailing.Some? then Spaces(v.trailing.value) else []);
    }
  }

  lemma {:induction false} PlainItemsMeanTheSame(items: Items, last: seq<Piece>)
    ensures MeaningOf(PlainItems(items, last)) == MeaningOf(items)
    decreases items
  {
    PlainMeansTheSame(items.item.value);
    if items.More? {
      PlainItemsMeanTheSame(items.rest, last);
    }
  }

  /** parseJSONC hands the decoder a JSON text of the same value as the JSONC document: both passes together take
      the text of any document to the text of its plain form. */
  lemma JsoncToJson(before: seq<Piece>, v: Value, after: seq<Piece>, last: Option<string>)
    requires GoodPieces(before) && Good(v) && GoodPieces(after) && GoodLastLine(last)
    ensures Commas(Strip(Document(before, v, after, last).full, Code), Code)
         == Document(Spaces(before), Plain(v), Spaces(after), None).full
    ensures AllSpaces(Spaces(before)) && IsPlain(Plain(v)) && AllSpaces(Spaces(after))
    ensures Meaning(Plain(v)) == Meaning(v)
  {
    hide Pieces, Render, GoodPieces, Good, Spaces, AllSpaces;
    JsoncBecomesJson(before, v, after, last);
    PlainValue(v);
    SpacesAre(before);
    SpacesAre(after);
    PlainIsPlain(v);
    PlainMeansTheSame(v);
    SpacesStay(before);
    SpacesStay(after);
  }

  /** Each pass by itself is the identity on JSON. */
  lemma PlainJsonStays(before: seq<Piece>, v: Value, after: seq<Piece>)
    requires GoodPieces(before) && Good(v) && GoodPieces(after)
    requires AllSpaces(before) && IsPlain(v) && AllSpaces(after)
    ensures var text := Document(before, v, after, None).full; Strip(text, Code) == text && Commas(text, Code) == text
  {
    hide Pieces, Render, GoodPieces, Good, Spaces, AllSpaces;
    JsoncBecomesJson(before, v, after, None);
    PlainIsPlain(v);
    PlainValue(v);
    SpacesStay(before);
    SpacesStay(after);
    SpacesAre(before);
    SpacesAre(after);
  }
}

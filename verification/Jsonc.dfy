/** agent/config/jsonc.go: making JSON of JSON with comments and trailing commas. */
module Jsonc {
  import opened GoStrings
  import JsonArray

  /** Where in the text a byte stands. */
  datatype Mode = Code | InString | Escaped | LineComment | BlockComment

  /** The mode after one byte of a text without comments. */
  function Next(m: Mode, c: char): Mode {
    match m
    case Code => if c == '"' then InString else Code
    case InString => if c == '\\' then Escaped else if c == '"' then Code else InString
    case Escaped => InString
    case _ => m
  }

  // ----- stripComments -----

  predicate Opens(s: string) {
    |s| >= 2 && s[0] == '/' && (s[1] == '/' || s[1] == '*')
  }

  predicate Shuts(s: string) {
    |s| >= 2 && s[0] == '*' && s[1] == '/'
  }

  /** What is left of `s` when it starts in mode `m`. */
  function Strip(s: string, m: Mode): string
    decreases |s|
  {
    if s == "" then ""
    else if m == LineComment then
      if s[0] == '\n' then "\n" + Strip(s[1..], Code) else Strip(s[1..], LineComment)
    else if m == BlockComment then
      if Shuts(s) then Strip(s[2..], Code) else Strip(s[1..], BlockComment)
    else if m == Code && Opens(s) then
      Strip(s[2..], if s[1] == '/' then LineComment else BlockComment)
    else [s[0]] + Strip(s[1..], Next(m, s[0]))
  }

  /** The flags of the loop as a mode; at most one of the three is set, and `escaped` only inside a string. */
  function ModeOf(inString: bool, escaped: bool, inLineComment: bool, inBlockComment: bool): Mode {
    if inLineComment then LineComment else if inBlockComment then BlockComment
    else if inString then if escaped then Escaped else InString else Code
  }

  /** The next character of `input` at `i`, or NUL at the end. */
  function Peek(input: string, i: nat): char {
    if i < |input| then input[i] else '\0'
  }

  /** One round of the loop, whatever the mode. */
  lemma StripByte(input: string, i: nat, m: Mode)
    requires i < |input|
    ensures var c, d, rest := input[i], Peek(input, i + 1), input[i + 1..];
            Strip(input[i..], m) ==
            if m == LineComment then
              if c == '\n' then [c] + Strip(rest, Code) else Strip(rest, m)
            else if m == BlockComment then
              if c == '*' && d == '/' then Strip(input[i + 2..], Code) else Strip(rest, m)
            else if m == Code && c == '/' && (d == '/' || d == '*') then
              Strip(input[i + 2..], if d == '/' then LineComment else BlockComment)
            else [c] + Strip(rest, Next(m, c))
  {
    var s := input[i..];
    assert s[1..] == input[i + 1..];
    assert i + 1 < |input| ==> s[1] == input[i + 1] && s[2..] == input[i + 2..];
  }

  method StripComments(input: string) returns (out: string)
    ensures out == Strip(input, Code)
  {
    hide Strip;
    out := "";
    var inString, escaped, inLineComment, inBlockComment := false, false, false, false;
    var i := 0;
    while i < |input|
      invariant 0 <= i <= |input|
      invariant (escaped ==> inString) && !(inString && inLineComment) && !(inString && inBlockComment)
      invariant !(inLineComment && inBlockComment)
      invariant out + Strip(input[i..], ModeOf(inString, escaped, inLineComment, inBlockComment)) == Strip(input, Code)
    {
      ghost var m := ModeOf(inString, escaped, inLineComment, inBlockComment);
      var c := input[i];
      StripByte(input, i, m);
      Assoc(out, [c], Strip(input[i + 1..], if m == LineComment then Code else Next(m, c)));
      i := i + 1;
      if inLineComment {
        if c == '\n' {
          inLineComment := false;
          out := out + [c];
        }
        continue;
      }
      if inBlockComment {
        if c == '*' && i < |input| && input[i] == '/' {
          inBlockComment := false;
          i := i + 1;
        }
        continue;
      }
      if inString {
        out := out + [c];
        if escaped {
          escaped := false;
          continue;
        }
        if c == '\\' {
          escaped := true;
          continue;
        }
        if c == '"' {
          inString := false;
        }
        continue;
      }
      if c == '"' {
        inString := true;
        out := out + [c];
        continue;
      }
      if c == '/' && i < |input| && input[i] == '/' {
        inLineComment := true;
        i := i + 1;
        continue;
      }
      if c == '/' && i < |input| && input[i] == '*' {
        inBlockComment := true;
        i := i + 1;
        continue;
      }
      out := out + [c];
    }
    assert input[|input|..] == "" && out + "" == out;
    EmptyStrip(ModeOf(inString, escaped, inLineComment, inBlockComment));
  }

  lemma EmptyStrip(m: Mode)
    ensures Strip("", m) == ""
  {
  }

  // ----- The text as tokens -----

  /** A comment is taken without the newline that ends it; a literal or block comment may lack its end. */
  datatype Token = Other(c: char) | Literal(text: string) | Comment(text: string)

  function StringRest(s: string, m: Mode): (n: nat)
    ensures n <= |s|
  {
    if s == "" then 0 else if Next(m, s[0]) == Code then 1 else 1 + StringRest(s[1..], Next(m, s[0]))
  }

  function LineRest(s: string): (n: nat)
    ensures n <= |s|
  {
    if s == "" || s[0] == '\n' then 0 else 1 + LineRest(s[1..])
  }

  function BlockRest(s: string): (n: nat)
    ensures n <= |s|
  {
    if s == "" then 0 else if Shuts(s) then 2 else 1 + BlockRest(s[1..])
  }

  function Text(t: Token): string {
    match t
    case Other(c) => [c]
    case Literal(text) => text
    case Comment(text) => text
  }

  function FirstToken(s: string): (t: Token)
    requires s != ""
    ensures 0 < |Text(t)| <= |s| && Text(t) == s[..|Text(t)|]
  {
    if s[0] == '"' then Literal(s[..1 + StringRest(s[1..], InString)])
    else if Opens(s) then Comment(s[..2 + if s[1] == '/' then LineRest(s[2..]) else BlockRest(s[2..])])
    else Other(s[0])
  }

  function Lex(s: string): seq<Token> {
    if s == "" then [] else [FirstToken(s)] + Lex(s[|Text(FirstToken(s))|..])
  }

  function Texts(ts: seq<Token>): string {
    if ts == [] then "" else Text(ts[0]) + Texts(ts[1..])
  }

  function WithoutComments(ts: seq<Token>): seq<Token> {
    if ts == [] then [] else (if ts[0].Comment? then [] else [ts[0]]) + WithoutComments(ts[1..])
  }

  /** The tokens are the whole text. */
  lemma {:induction false} LexLosesNothing(s: string)
    ensures Texts(Lex(s)) == s
    decreases |s|
  {
    hide FirstToken;
    if s != "" {
      LexLosesNothing(s[|Text(FirstToken(s))|..]);
    }
  }

  lemma {:induction false} StripString(s: string, m: Mode)
    requires m == InString || m == Escaped
    ensures Strip(s, m) == s[..StringRest(s, m)] + Strip(s[StringRest(s, m)..], Code)
    decreases |s|
  {
    hide Strip;
    if s == "" {
      EmptyStrip(m);
      EmptyStrip(Code);
    } else {
      assert s == s[0..];
      StripByte(s, 0, m);
      if Next(m, s[0]) == Code {
        assert s[..1] == [s[0]];
      } else {
        StripString(s[1..], Next(m, s[0]));
        Cut(s, 1, StringRest(s[1..], Next(m, s[0])));
      }
    }
  }

  lemma {:induction false} StripLine(s: string)
    ensures Strip(s, LineComment) == Strip(s[LineRest(s)..], Code)
    decreases |s|
  {
    if s != "" && s[0] != '\n' {
      StripLine(s[1..]);
      assert s[1..][LineRest(s[1..])..] == s[1 + LineRest(s[1..])..];
    }
  }

  lemma {:induction false} StripBlock(s: string)
    ensures Strip(s, BlockComment) == Strip(s[BlockRest(s)..], Code)
    decreases |s|
  {
    if s != "" && !Shuts(s) {
      StripBlock(s[1..]);
      assert s[1..][BlockRest(s[1..])..] == s[1 + BlockRest(s[1..])..];
    }
  }

  /** The first token is kept, unless it is a comment. */
  lemma StripToken(s: string)
    requires s != ""
    ensures var t := FirstToken(s);
            Strip(s, Code) == (if t.Comment? then "" else Text(t)) + Strip(s[|Text(t)|..], Code)
  {
    hide Strip, StringRest, LineRest, BlockRest;
    assert s == s[0..] && (|s| > 1 ==> s[1] == Peek(s, 1));
    StripByte(s, 0, Code);
    if s[0] == '"' {
      StripString(s[1..], InString);
      Cut(s, 1, StringRest(s[1..], InString));
    } else if Opens(s) {
      StripLine(s[2..]);
      StripBlock(s[2..]);
      Cut(s, 2, if s[1] == '/' then LineRest(s[2..]) else BlockRest(s[2..]));
    }
  }

  lemma Cut(s: string, k: nat, n: nat)
    requires k + n <= |s|
    ensures s[..k + n] == s[..k] + s[k..][..n] && s[k..][n..] == s[k + n..]
  {
  }

  /** A literal that ends, ends the same way whatever follows it. */
  lemma {:induction false} StringRestWith(s: string, m: Mode, x: string)
    requires m == InString || m == Escaped
    requires StringRest(s, m) < |s| || x == ""
    ensures StringRest(s[..StringRest(s, m)] + x, m) == StringRest(s, m)
    decreases |s|
  {
    var n := StringRest(s, m);
    if s != "" && Next(m, s[0]) != Code {
      StringRestWith(s[1..], Next(m, s[0]), x);
      assert (s[..n] + x)[1..] == s[1..][..n - 1] + x;
    } else if s == "" {
      assert s[..n] + x == "";
    }
  }

  /** Two tokens that were apart do not run together when a comment between them goes. */
  lemma FirstTokenStays(s: string)
    requires s != "" && !FirstToken(s).Comment?
    ensures var t := FirstToken(s); FirstToken(Text(t) + Strip(s[|Text(t)|..], Code)) == t
  {
    var t := FirstToken(s);
    var rest := s[|Text(t)|..];
    var x := Strip(rest, Code);
    var u := Text(t) + x;
    if s[0] == '"' {
      var n := StringRest(s[1..], InString);
      assert u[1..] == s[1..][..n] + x;
      StringRestWith(s[1..], InString, x);
      assert u[..1 + n] == Text(t);
    } else if s[0] == '/' && rest != "" {
      assert rest[0] == s[1];
      assert x[0] == rest[0];
      assert u[1] == x[0];
    }
  }

  /** stripComments removes the comments and nothing else: what is left reads as the same tokens, every
      literal among them byte for byte, and none of them a comment. */
  lemma {:induction false} StripKeepsTokens(s: string)
    ensures Lex(Strip(s, Code)) == WithoutComments(Lex(s))
    decreases |s|
  {
    hide Strip, FirstToken;
    if s == "" {
      EmptyStrip(Code);
    } else {
      var t := FirstToken(s);
      var rest := s[|Text(t)|..];
      StripToken(s);
      StripKeepsTokens(rest);
      assert Lex(s) == [t] + Lex(rest);
      if t.Comment? {
        assert "" + Strip(rest, Code) == Strip(rest, Code);
      } else {
        FirstTokenStays(s);
        assert (Text(t) + Strip(rest, Code))[|Text(t)|..] == Strip(rest, Code);
      }
    }
  }

  lemma StripIsTexts(s: string)
    ensures Strip(s, Code) == Texts(WithoutComments(Lex(s)))
  {
    LexLosesNothing(Strip(s, Code));
    StripKeepsTokens(s);
  }

  predicate CommentFree(ts: seq<Token>) {
    forall i :: 0 <= i < |ts| ==> !ts[i].Comment?
  }

  lemma {:induction false} WithoutCommentsIsFree(ts: seq<Token>)
    ensures CommentFree(WithoutComments(ts))
    ensures CommentFree(ts) ==> WithoutComments(ts) == ts
    decreases |ts|
  {
    if ts != [] {
      WithoutCommentsIsFree(ts[1..]);
      assert CommentFree(ts) ==> CommentFree(ts[1..]);
    }
  }

  /** It leaves no comment opener outside strings, leaves a text alone exactly when it has none, and a second pass
      changes nothing. */
  lemma StripOnce(s: string)
    ensures CommentFree(Lex(Strip(s, Code)))
    ensures Strip(s, Code) == s <==> CommentFree(Lex(s))
    ensures Strip(Strip(s, Code), Code) == Strip(s, Code)
  {
    hide Strip, Lex, WithoutComments, CommentFree;
    StripKeepsTokens(s);
    WithoutCommentsIsFree(Lex(s));
    StripIsTexts(s);
    LexLosesNothing(s);
    StripIsTexts(Strip(s, Code));
    WithoutCommentsIsFree(WithoutComments(Lex(s)));
  }

  // ----- stripTrailingCommas -----

  predicate IsCloser(c: char) {
    c == '}' || c == ']'
  }

  function SkipBlanks(s: string): string {
    if s != "" && JsonArray.IsWhitespaceByte(s[0]) then SkipBlanks(s[1..]) else s
  }

  /** A closing bracket is next, after white space at most. */
  predicate ClosesNext(s: string) {
    var r := SkipBlanks(s);
    r != "" && IsCloser(r[0])
  }

  predicate Trailing(s: string) {
    s != "" && s[0] == ',' && ClosesNext(s[1..])
  }

  function Commas(s: string, m: Mode): string {
    if s == "" then ""
    else if m == Code && Trailing(s) then Commas(s[1..], Code)
    else [s[0]] + Commas(s[1..], Next(m, s[0]))
  }

  lemma SkipByte(s: string, j: nat)
    requires j <= |s|
    ensures SkipBlanks(s[j..]) == if j < |s| && JsonArray.IsWhitespaceByte(s[j]) then SkipBlanks(s[j + 1..]) else s[j..]
  {
    hide JsonArray.IsWhitespaceByte;
    if j < |s| {
      assert s[j..][1..] == s[j + 1..];
    }
  }

  /** The look-ahead of the loop: from `j`, past the white space. */
  method LookAhead(input: string, i: nat) returns (found: bool)
    requires i < |input|
    ensures found <==> ClosesNext(input[i + 1..])
  {
    hide SkipBlanks;
    var j := i + 1;
    while j < |input| && (input[j] == ' ' || input[j] == '\n' || input[j] == '\t' || input[j] == '\r')
      invariant i < j <= |input|
      invariant SkipBlanks(input[j..]) == SkipBlanks(input[i + 1..])
    {
      SkipByte(input, j);
      j := j + 1;
    }
    SkipByte(input, j);
    found := j < |input| && (input[j] == '}' || input[j] == ']');
  }

  lemma CommasByte(input: string, i: nat, m: Mode)
    requires i < |input|
    ensures Commas(input[i..], m) ==
            if m == Code && input[i] == ',' && ClosesNext(input[i + 1..]) then Commas(input[i + 1..], Code)
            else [input[i]] + Commas(input[i + 1..], Next(m, input[i]))
  {
    hide ClosesNext;
    assert input[i..][1..] == input[i + 1..];
  }

  lemma EmptyCommas(m: Mode)
    ensures Commas("", m) == ""
  {
  }

  method StripTrailingCommas(input: string) returns (out: string)
    ensures out == Commas(input, Code)
  {
    hide Commas, ClosesNext;
    out := "";
    var inString, escaped := false, false;
    var i := 0;
    while i < |input|
      invariant 0 <= i <= |input| && (escaped ==> inString)
      invariant out + Commas(input[i..], ModeOf(inString, escaped, false, false)) == Commas(input, Code)
    {
      ghost var m := ModeOf(inString, escaped, false, false);
      var c := input[i];
      CommasByte(input, i, m);
      Assoc(out, [c], Commas(input[i + 1..], Next(m, c)));
      i := i + 1;
      if inString {
        out := out + [c];
        if escaped {
          escaped := false;
          continue;
        }
        if c == '\\' {
          escaped := true;
          continue;
        }
        if c == '"' {
          inString := false;
        }
        continue;
      }
      if c == '"' {
        inString := true;
        out := out + [c];
        continue;
      }
      if c == ',' {
        var found := LookAhead(input, i - 1);
        if found {
          continue;
        }
      }
      out := out + [c];
    }
    assert input[|input|..] == "" && out + "" == out;
    EmptyCommas(ModeOf(inString, escaped, false, false));
  }

  // ----- Which bytes go -----

  /** The mode in which the byte behind `s` is read. */
  function ModeAfter(s: string): Mode {
    if s == "" then Code else Next(ModeAfter(s[..|s| - 1]), s[|s| - 1])
  }

  ghost predicate BlankBetween(s: string, i: int, j: int) {
    && -1 <= i < j <= |s|
    && forall k :: i < k < j ==> s[k] == ' ' || s[k] == '\t' || s[k] == '\n' || s[k] == '\r'
  }

  /** Byte `i` is a comma outside strings, and only white space stands between it and a closing bracket. */
  ghost predicate Dropped(s: string, i: nat) {
    && i < |s| && s[i] == ',' && ModeAfter(s[..i]) == Code
    && exists j: nat :: j < |s| && BlankBetween(s, i, j) && (s[j] == '}' || s[j] == ']')
  }

  /** The bytes from `i` on, without those that are dropped. */
  ghost function KeptFrom(s: string, i: nat): string
    requires i <= |s|
    decreases |s| - i
  {
    if i == |s| then "" else (if Dropped(s, i) then "" else [s[i]]) + KeptFrom(s, i + 1)
  }

  lemma ModeAfterOne(s: string, i: nat)
    requires i < |s|
    ensures ModeAfter(s[..i + 1]) == Next(ModeAfter(s[..i]), s[i])
  {
    assert s[..i + 1][..i] == s[..i];
  }

  /** Where the next byte that is not white space stands. */
  lemma {:induction false} SkipsTo(s: string, i: nat, j: nat)
    requires i < j < |s| && BlankBetween(s, i, j) && !JsonArray.IsWhitespaceByte(s[j])
    ensures SkipBlanks(s[i + 1..]) == s[j..]
    decreases j - i
  {
    if i + 1 < j {
      SkipsTo(s, i + 1, j);
      assert s[i + 1..][1..] == s[i + 2..];
    }
  }

  lemma {:induction false} SkippedAre(s: string, i: nat) returns (j: nat)
    requires i < |s|
    ensures i < j <= |s| && BlankBetween(s, i, j) && s[j..] == SkipBlanks(s[i + 1..])
    decreases |s| - i
  {
    hide SkipBlanks;
    SkipByte(s, i + 1);
    if i + 1 < |s| && JsonArray.IsWhitespaceByte(s[i + 1]) {
      j := SkippedAre(s, i + 1);
    } else {
      j := i + 1;
    }
  }

  lemma DroppedIsTrailing(s: string, i: nat)
    requires i < |s|
    ensures Dropped(s, i) <==> ModeAfter(s[..i]) == Code && Trailing(s[i..])
  {
    hide ModeAfter;
    assert s[i..][1..] == s[i + 1..];
    if Dropped(s, i) {
      var j: nat :| j < |s| && BlankBetween(s, i, j) && (s[j] == '}' || s[j] == ']');
      SkipsTo(s, i, j);
    } else if Trailing(s[i..]) {
      var j := SkippedAre(s, i);
      assert s[j] == SkipBlanks(s[i + 1..])[0];
    }
  }

  /** stripTrailingCommas deletes exactly the commas outside strings that only white space separates from a closing
      bracket. */
  lemma {:induction false} CommasDropExactly(s: string, i: nat)
    requires i <= |s|
    ensures Commas(s[i..], ModeAfter(s[..i])) == KeptFrom(s, i)
    decreases |s| - i
  {
    hide Dropped, ModeAfter, Trailing;
    if i < |s| {
      DroppedIsTrailing(s, i);
      ModeAfterOne(s, i);
      CommasDropExactly(s, i + 1);
      assert s[i..][1..] == s[i + 1..];
      if Dropped(s, i) {
        assert s[i] == ',' by { DroppedIsComma(s, i); }
      }
    }
  }

  lemma DroppedIsComma(s: string, i: nat)
    requires Dropped(s, i)
    ensures i < |s| && s[i] == ','
  {
  }

  // ----- When a second pass changes nothing -----

  predicate HasTrailing(s: string, m: Mode) {
    s != "" && ((m == Code && Trailing(s)) || HasTrailing(s[1..], Next(m, s[0])))
  }

  lemma {:induction false} UnchangedIff(s: string, m: Mode)
    ensures |Commas(s, m)| <= |s| && (Commas(s, m) == s <==> !HasTrailing(s, m))
    decreases |s|
  {
    hide Trailing;
    if s != "" {
      UnchangedIff(s[1..], Next(m, s[0]));
      if m == Code && Trailing(s) {
        assert s[0] == ',' by { TrailingIsComma(s); }
      } else {
        assert s == [s[0]] + s[1..];
        assert Commas(s, m)[1..] == Commas(s[1..], Next(m, s[0]));
      }
    }
  }

  lemma TrailingIsComma(s: string)
    requires Trailing(s)
    ensures s[0] == ','
  {
  }

  /** In what is left a closing bracket is next if it was, or if a dropped comma hid it. */
  lemma {:induction false} ClosesNextAfter(s: string)
    ensures ClosesNext(Commas(s, Code)) <==> ClosesNext(s) || Trailing(SkipBlanks(s))
    decreases |s|
  {
    if s != "" {
      if JsonArray.IsWhitespaceByte(s[0]) {
        ClosesNextAfter(s[1..]);
        assert Commas(s, Code)[1..] == Commas(s[1..], Code);
      } else if Trailing(s) {
        ClosesNextAfter(s[1..]);
      }
    }
  }

  /** A comma that stays, with only white space between it and one that goes. */
  predicate Again(s: string, m: Mode) {
    s != "" && ((m == Code && s[0] == ',' && Trailing(SkipBlanks(s[1..]))) || Again(s[1..], Next(m, s[0])))
  }

  lemma {:induction false} AgainIff(s: string, m: Mode)
    ensures HasTrailing(Commas(s, m), m) <==> Again(s, m)
    decreases |s|
  {
    if s != "" {
      var rest, m' := s[1..], Next(m, s[0]);
      AgainIff(rest, m');
      if m == Code {
        ClosesNextAfter(rest);
      }
      if m == Code && Trailing(s) {
        ClosersAreNoCommas(rest);
      } else {
        assert Commas(s, m)[1..] == Commas(rest, m');
      }
    }
  }

  lemma ClosersAreNoCommas(s: string)
    requires ClosesNext(s)
    ensures !Trailing(SkipBlanks(s))
  {
  }

  ghost predicate Stacked(s: string, i: nat, j: nat) {
    i < |s| && s[i] == ',' && BlankBetween(s, i, j) && Dropped(s, j)
  }

  /** Commas and white space do not leave a string. */
  lemma {:induction false} SameMode(s: string, i: nat, j: nat)
    requires i < j <= |s| && s[i] == ',' && BlankBetween(s, i, j) && ModeAfter(s[..j]) == Code
    ensures ModeAfter(s[..i]) == Code
    decreases j - i
  {
    hide ModeAfter;
    if i + 1 == j {
      ModeAfterOne(s, i);
    } else {
      ModeAfterOne(s, j - 1);
      SameMode(s, i, j - 1);
    }
  }

  lemma {:induction false} AgainIsStacked(s: string, i: nat) returns (a: nat, b: nat)
    requires i <= |s| && Again(s[i..], ModeAfter(s[..i]))
    ensures Stacked(s, a, b)
    decreases |s| - i
  {
    hide ModeAfter, Trailing;
    assert s[i..][1..] == s[i + 1..];
    ModeAfterOne(s, i);
    if ModeAfter(s[..i]) == Code && s[i] == ',' && Trailing(SkipBlanks(s[i + 1..])) {
      a := i;
      b := SkippedAre(s, i);
      CodeStays(s, i, b);
      assert b < |s| by { if b == |s| { assert s[b..] == ""; EmptyIsNotTrailing(); } }
      DroppedIsTrailing(s, b);
    } else {
      a, b := AgainIsStacked(s, i + 1);
    }
  }

  lemma EmptyIsNotTrailing()
    ensures !Trailing("")
  {
  }

  lemma {:induction false} CodeStays(s: string, i: nat, j: nat)
    requires i < j <= |s| && s[i] == ',' && BlankBetween(s, i, j) && ModeAfter(s[..i]) == Code
    ensures ModeAfter(s[..j]) == Code
    decreases j - i
  {
    hide ModeAfter;
    ModeAfterOne(s, j - 1);
    if i + 1 < j {
      CodeStays(s, i, j - 1);
    }
  }

  lemma {:induction false} StackedIsAgain(s: string, i: nat, a: nat, b: nat)
    requires i <= a && Stacked(s, a, b)
    ensures Again(s[i..], ModeAfter(s[..i]))
    decreases a - i
  {
    hide ModeAfter, Trailing;
    assert s[i..][1..] == s[i + 1..];
    ModeAfterOne(s, i);
    if i < a {
      StackedIsAgain(s, i + 1, a, b);
    } else {
      DroppedIsTrailing(s, b);
      DroppedIsComma(s, b);
      SameMode(s, a, b);
      SkipsTo(s, a, b);
    }
  }

  /** A second pass changes nothing, except where two commas stand together in front of a closing bracket. */
  lemma CommasTwice(s: string)
    ensures Commas(Commas(s, Code), Code) == Commas(s, Code) <==> !exists i: nat, j: nat :: Stacked(s, i, j)
  {
    hide Stacked, Commas, HasTrailing, Again;
    UnchangedIff(Commas(s, Code), Code);
    AgainIff(s, Code);
    assert s[0..] == s && ModeAfter(s[..0]) == Code;
    if Again(s, Code) {
      var a, b := AgainIsStacked(s, 0);
    }
    if i: nat, j: nat :| Stacked(s, i, j) {
      StackedIsAgain(s, 0, i, j);
    }
  }

  lemma CommasNotIdempotent()
    ensures Commas(Commas("[1,,]", Code), Code) != Commas("[1,,]", Code)
  {
    hide Commas, ModeAfter;
    var s := "[1,,]";
    ModeAfterOne(s, 0);
    ModeAfterOne(s, 1);
    ModeAfterOne(s, 2);
    assert ModeAfter(s[..0]) == Code by { StartsInCode(s); }
    assert BlankBetween(s, 3, 4) && Dropped(s, 3);
    assert Stacked(s, 2, 3);
    CommasTwice(s);
  }

  lemma StartsInCode(s: string)
    ensures ModeAfter(s[..0]) == Code
  {
  }
}

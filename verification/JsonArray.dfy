/** agent/core_agent/default_actions.go, StreamJSONArrayObjects: cutting a streamed JSON array into its
    objects, byte by byte, without parsing them. */
module JsonArray {
  import opened GoStrings

  datatype End = EOF | Failed

  /** What the reader delivers: bytes, then its end, which may come together with the last byte. */
  datatype Input = Input(bytes: string, end: End, together: bool)

  /** The pipe of one object: what was written to it, and whether it was closed. */
  datatype Pipe = Pipe(bytes: string, closed: bool)

  datatype Result = Nil | UnexpectedEOF | ReadError | NotArray(c: char) | NotObject(c: char) | CallbackError(index: nat)

  datatype Outcome = Outcome(items: seq<Pipe>, result: Result)

  predicate IsWhitespaceByte(c: char) {
    c == ' ' || c == '\t' || c == '\n' || c == '\r'
  }

  predicate IsSeparator(c: char) {
    IsWhitespaceByte(c) || c == ','
  }

  // ----- The scanner, on values -----

  datatype Scan = Scan(depth: int, inString: bool, escaped: bool)

  function Advance(q: Scan, c: char): Scan {
    if q.escaped then q.(escaped := false)
    else if q.inString then
      if c == '\\' then q.(escaped := true) else if c == '"' then q.(inString := false) else q
    else if c == '"' then q.(inString := true)
    else if c == '{' then q.(depth := q.depth + 1)
    else if c == '}' then q.(depth := q.depth - 1)
    else q
  }

  /** How many bytes of `s` belong to the object that is open in state `q`; None when it does not end. */
  function ItemEnd(s: string, q: Scan): (n: Option<nat>)
    ensures n.Some? ==> 0 < n.value <= |s|
  {
    if s == "" then None
    else if Advance(q, s[0]).depth == 0 then Some(1)
    else match ItemEnd(s[1..], Advance(q, s[0]))
         case None => None
         case Some(n) => Some(n + 1)
  }

  /** What is delivered from inside an object of which `cur` is already written. */
  function Inside(cur: string, s: string, q: Scan, i: nat, accept: nat -> bool, end: End): Outcome
    decreases |s|, 0
  {
    match ItemEnd(s, q)
    case None => Outcome([Pipe(cur + s, end == EOF)], if end == EOF then UnexpectedEOF else ReadError)
    case Some(n) => Prepend([Pipe(cur + s[..n], true)], Between(s[n..], i + 1, accept, end))
  }

  /** ... between objects, when the next one has index `i`. */
  function Between(s: string, i: nat, accept: nat -> bool, end: End): Outcome
    decreases |s|, 1
  {
    if s == "" then Outcome([], if end == EOF then Nil else ReadError)
    else if IsSeparator(s[0]) then Between(s[1..], i, accept, end)
    else if s[0] == ']' then Outcome([], Nil)
    else if s[0] != '{' then Outcome([], NotObject(s[0]))
    else if !accept(i) then Outcome([Pipe("", true)], CallbackError(i))
    else Inside("{", s[1..], Scan(1, false, false), i, accept, end)
  }

  /** ... before the array. */
  function Before(s: string, accept: nat -> bool, end: End, together: bool): Outcome {
    if s == "" then Outcome([], if end == EOF then Nil else ReadError)
    else if IsWhitespaceByte(s[0]) then
      if |s| == 1 && together && end == EOF then Outcome([], UnexpectedEOF) else Before(s[1..], accept, end, together)
    else if s[0] != '[' then Outcome([], NotArray(s[0]))
    else Between(s[1..], 0, accept, end)
  }

  function Prepend(items: seq<Pipe>, o: Outcome): Outcome {
    Outcome(items + o.items, o.result)
  }

  lemma PrependTwice(a: seq<Pipe>, b: seq<Pipe>, o: Outcome)
    ensures Prepend(a, Prepend(b, o)) == Prepend(a + b, o)
  {
    Assoc(a, b, o.items);
  }

  /** One more byte of an object. */
  lemma InsideStep(cur: string, s: string, q: Scan, i: nat, accept: nat -> bool, end: End)
    requires s != ""
    ensures var q' := Advance(q, s[0]);
            Inside(cur, s, q, i, accept, end) ==
            if q'.depth == 0 then Prepend([Pipe(cur + [s[0]], true)], Between(s[1..], i + 1, accept, end))
            else Inside(cur + [s[0]], s[1..], q', i, accept, end)
  {
    hide Advance, Between;
    var q' := Advance(q, s[0]);
    if q'.depth == 0 {
      assert s[..1] == [s[0]];
    } else if ItemEnd(s[1..], q').Some? {
      var n := ItemEnd(s[1..], q').value;
      assert cur + s[..n + 1] == (cur + [s[0]]) + s[1..][..n] && s[1..][n..] == s[n + 1..];
    } else {
      assert cur + s == (cur + [s[0]]) + s[1..];
    }
  }

  /** reader.Read of one byte. */
  method Read(input: Input, pos: nat) returns (n: nat, ch: char, err: Option<End>)
    requires pos <= |input.bytes|
    ensures if pos == |input.bytes| then n == 0 && err == Some(input.end)
            else n == 1 && ch == input.bytes[pos] && (err.Some? <==> input.together && pos + 1 == |input.bytes|)
    ensures err.Some? ==> err.value == input.end
  {
    n, ch, err := 0, ' ', None;
    if pos < |input.bytes| {
      n, ch := 1, input.bytes[pos];
    }
    if pos == |input.bytes| || (pos + 1 == |input.bytes| && input.together) {
      err := Some(input.end);
    }
  }

  /** The switch over one byte of an object; `closed` when it ends the object. */
  method Switch(depth: int, inString: bool, escaped: bool, ch: char)
    returns (depth': int, inString': bool, escaped': bool, closed: bool)
    requires depth > 0 || (depth == 0 && !inString && !escaped && ch == '{')
    ensures Scan(depth', inString', escaped') == Advance(Scan(depth, inString, escaped), ch)
    ensures depth' >= 0 && (closed <==> depth' == 0)
  {
    depth', inString', escaped', closed := depth, inString, escaped, false;
    if escaped {
      escaped' := false;
    } else {
      match ch
      case '\\' =>
        if inString {
          escaped' := true;
        }
      case '"' =>
        inString' := !inString;
      case '{' =>
        if !inString {
          depth' := depth + 1;
        }
      case '}' =>
        if !inString {
          depth' := depth - 1;
          closed := depth' == 0;
        }
      case _ =>
    }
  }

  /** What is still to come, given the loop's variables. */
  ghost function Rest(seenArray: bool, itemWriter: Option<string>, q: Scan, i: nat, s: string, accept: nat -> bool,
                      input: Input): Outcome {
    if !seenArray then Before(s, accept, input.end, input.together)
    else if itemWriter.None? then Between(s, i, accept, input.end)
    else Inside(itemWriter.value, s, q, i, accept, input.end)
  }

  /** The loop delivers what `Before` says of the whole input. */
  method StreamJSONArrayObjects(input: Input, accept: nat -> bool) returns (items: seq<Pipe>, result: Result)
    ensures Outcome(items, result) == Before(input.bytes, accept, input.end, input.together)
  {
    hide Before, Between, Inside, Advance;
    items := [];
    var itemWriter: Option<string> := None;
    var itemIndex: nat, depth, inString, escaped, seenArray := 0, 0, false, false, false;
    var pos := 0;
    ghost var whole := Before(input.bytes, accept, input.end, input.together);
    assert Prepend([], whole) == whole && input.bytes[0..] == input.bytes;
    while true
      invariant 0 <= pos <= |input.bytes|
      invariant (itemWriter.Some? ==> seenArray && depth > 0) && (!seenArray ==> itemIndex == 0)
      invariant whole
                == Prepend(items,
                           Rest(seenArray, itemWriter, Scan(depth, inString, escaped), itemIndex, input.bytes[pos..],
                                accept, input))
      decreases |input.bytes| - pos
    {
      ghost var s := input.bytes[pos..];
      var n, ch, err := Read(input, pos);
      if n > 0 {
        assert s[0] == ch && s[1..] == input.bytes[pos + 1..];
        pos := pos + 1;
        if !seenArray {
          BeforeStep(s, accept, input);
          if IsWhitespaceByte(ch) {
            if err == Some(EOF) {
              result := UnexpectedEOF;
              return;
            }
            continue;
          }
          if ch != '[' {
            result := NotArray(ch);
            return;
          }
          seenArray := true;
          continue;
        }
        if itemWriter == None {
          BetweenStep(s, itemIndex, accept, input.end);
          if IsWhitespaceByte(ch) || ch == ',' {
            continue;
          }
          if ch == ']' {
            result := Nil;
            return;
          }
          if ch != '{' {
            result := NotObject(ch);
            return;
          }
          itemWriter := Some("");
          if !accept(itemIndex) {
            items, result := items + [Pipe("", true)], CallbackError(itemIndex);
            return;
          }
          depth, inString, escaped := 0, false, false;
        }
        ghost var q := Scan(depth, inString, escaped);
        InsideStep(itemWriter.value, s, q, itemIndex, accept, input.end);
        itemWriter := Some(itemWriter.value + [ch]);
        var closed;
        depth, inString, escaped, closed := Switch(depth, inString, escaped, ch);
        if closed {
          PrependTwice(items, [Pipe(itemWriter.value, true)], Between(s[1..], itemIndex + 1, accept, input.end));
          items := items + [Pipe(itemWriter.value, true)];
          itemWriter := None;
          itemIndex := itemIndex + 1;
        }
      }
      if err != None {
        AtEnd(seenArray, itemWriter, Scan(depth, inString, escaped), itemIndex, accept, input);
        assert input.bytes[pos..] == "";
        if err == Some(EOF) {
          if itemWriter != None {
            items, result := items + [Pipe(itemWriter.value, true)], UnexpectedEOF;
            return;
          }
          result := Nil;
          return;
        }
        if itemWriter != None {
          items := items + [Pipe(itemWriter.value, false)];
        }
        result := ReadError;
        return;
      }
    }
  }

  lemma BeforeStep(s: string, accept: nat -> bool, input: Input)
    requires s != ""
    ensures Before(s, accept, input.end, input.together) ==
            if IsWhitespaceByte(s[0]) then
              if |s| == 1 && input.together && input.end == EOF then Outcome([], UnexpectedEOF)
              else Before(s[1..], accept, input.end, input.together)
            else if s[0] != '[' then Outcome([], NotArray(s[0]))
            else Between(s[1..], 0, accept, input.end)
  {
  }

  /** `{` opens an object with nothing written yet, at depth 0: its first byte makes the depth 1. */
  lemma BetweenStep(s: string, i: nat, accept: nat -> bool, end: End)
    requires s != ""
    ensures Between(s, i, accept, end) ==
            if IsSeparator(s[0]) then Between(s[1..], i, accept, end)
            else if s[0] == ']' then Outcome([], Nil)
            else if s[0] != '{' then Outcome([], NotObject(s[0]))
            else if !accept(i) then Outcome([Pipe("", true)], CallbackError(i))
            else Inside("", s, Scan(0, false, false), i, accept, end)
  {
    if s[0] == '{' {
      InsideStep("", s, Scan(0, false, false), i, accept, end);
      assert "" + [s[0]] == "{";
    }
  }

  lemma AtEnd(seenArray: bool, itemWriter: Option<string>, q: Scan, i: nat, accept: nat -> bool, input: Input)
    ensures Rest(seenArray, itemWriter, q, i, "", accept, input) ==
            Outcome(if seenArray && itemWriter.Some? then [Pipe(itemWriter.value, input.end == EOF)] else [],
                    if input.end == Failed then ReadError
                    else if seenArray && itemWriter.Some? then UnexpectedEOF else Nil)
  {
    if itemWriter.Some? {
      assert itemWriter.value + "" == itemWriter.value;
    }
  }

  // ----- Which inputs are arrays of objects -----

  /** One character of a string literal: itself, or a backslash and any character. */
  datatype StringChar = Raw(c: char) | Escape(c: char)

  /** What stands between a `{` and its `}`: other characters, string literals and nested objects. */
  datatype Body =
    | Close
    | Plain(c: char, rest: Body)
    | Literal(chars: seq<StringChar>, rest: Body)
    | Nested(inner: Body, rest: Body)

  predicate WellFormedChar(c: StringChar) {
    c.Raw? ==> c.c != '"' && c.c != '\\'
  }

  predicate WellFormed(b: Body) {
    match b
    case Close => true
    case Plain(c, rest) => c != '"' && c != '{' && c != '}' && WellFormed(rest)
    case Literal(chars, rest) => (forall i :: 0 <= i < |chars| ==> WellFormedChar(chars[i])) && WellFormed(rest)
    case Nested(inner, rest) => WellFormed(inner) && WellFormed(rest)
  }

  function CharText(c: StringChar): string {
    match c
    case Raw(r) => [r]
    case Escape(e) => ['\\', e]
  }

  function CharsText(chars: seq<StringChar>): string {
    if chars == [] then ""
    else CharText(chars[0]) + CharsText(chars[1..])
  }

  /** The text of a body with its closing brace. */
  function Text(b: Body): string {
    match b
    case Close => "}"
    case Plain(c, rest) => [c] + Text(rest)
    case Literal(chars, rest) => "\"" + (CharsText(chars) + ("\"" + Text(rest)))
    case Nested(inner, rest) => "{" + (Text(inner) + Text(rest))
  }

  function Object(b: Body): string {
    "{" + Text(b)
  }

  /** White space (section 2 of RFC 8259) and commas. */
  predicate AllSeparators(s: string) {
    forall i :: 0 <= i < |s| ==> s[i] == ' ' || s[i] == '\t' || s[i] == '\n' || s[i] == '\r' || s[i] == ','
  }

  predicate AllWhitespace(s: string) {
    forall i :: 0 <= i < |s| ==> s[i] == ' ' || s[i] == '\t' || s[i] == '\n' || s[i] == '\r'
  }

  /** The inside of an array: objects, and before, between and after them any separators. */
  function Weave(seps: seq<string>, bodies: seq<Body>): string
    requires |seps| == |bodies| + 1
  {
    if bodies == [] then seps[0] else seps[0] + (Object(bodies[0]) + Weave(seps[1..], bodies[1..]))
  }

  /** The pipes of the objects, each with exactly its object's bytes. */
  function Delivered(bodies: seq<Body>): seq<Pipe> {
    if bodies == [] then [] else [Pipe(Object(bodies[0]), true)] + Delivered(bodies[1..])
  }

  predicate Parts(seps: seq<string>, bodies: seq<Body>) {
    && |seps| == |bodies| + 1
    && (forall i :: 0 <= i < |seps| ==> AllSeparators(seps[i]))
    && forall i :: 0 <= i < |bodies| ==> WellFormed(bodies[i])
  }

  // ----- Splitting undoes joining -----

  function Further(k: nat, n: Option<nat>): Option<nat> {
    if n.None? then None else Some(n.value + k)
  }

  lemma OneByte(c: char, s: string, q: Scan)
    requires Advance(q, c).depth != 0
    ensures ItemEnd([c] + s, q) == Further(1, ItemEnd(s, Advance(q, c)))
  {
    hide Advance;
    assert ([c] + s)[1..] == s;
  }

  lemma OneChar(c: StringChar, s: string, d: int)
    requires d > 0 && WellFormedChar(c)
    ensures ItemEnd(CharText(c) + s, Scan(d, true, false)) == Further(|CharText(c)|, ItemEnd(s, Scan(d, true, false)))
  {
    hide ItemEnd;
    match c
    case Raw(r) =>
      OneByte(r, s, Scan(d, true, false));
    case Escape(e) =>
      OneByte(e, s, Scan(d, true, true));
      OneByte('\\', [e] + s, Scan(d, true, false));
      assert CharText(c) + s == ['\\'] + ([e] + s);
  }

  lemma {:induction false} ThroughChars(chars: seq<StringChar>, s: string, d: int)
    requires d > 0 && forall i :: 0 <= i < |chars| ==> WellFormedChar(chars[i])
    ensures ItemEnd(CharsText(chars) + s, Scan(d, true, false))
            == Further(|CharsText(chars)|, ItemEnd(s, Scan(d, true, false)))
    decreases |chars|
  {
    hide ItemEnd, CharText, WellFormedChar;
    if chars == [] {
      assert CharsText(chars) + s == s;
    } else {
      ThroughChars(chars[1..], s, d);
      OneChar(chars[0], CharsText(chars[1..]) + s, d);
      Assoc(CharText(chars[0]), CharsText(chars[1..]), s);
    }
  }

  /** What the scanner finds behind a body that it enters at depth `d`. */
  function After(n: nat, s: string, d: int): Option<nat> {
    if d == 1 then Some(n) else Further(n, ItemEnd(s, Scan(d - 1, false, false)))
  }

  /** A body brings the scanner one level up, and past its text. */
  lemma {:induction false} ThroughBody(b: Body, s: string, d: int)
    requires d > 0 && WellFormed(b)
    ensures ItemEnd(Text(b) + s, Scan(d, false, false)) == After(|Text(b)|, s, d)
    decreases b
  {
    hide ItemEnd, CharsText, WellFormedChar;
    match b
    case Close => LastBrace(s, d);
    case Plain(c, rest) =>
      ThroughBody(rest, s, d);
      OneByte(c, Text(rest) + s, Scan(d, false, false));
      Assoc([c], Text(rest), s);
    case Literal(chars, rest) =>
      ThroughBody(rest, s, d);
      ThroughLiteral(chars, Text(rest) + s, d);
      Regroup(['"'], CharsText(chars), ['"'], Text(rest), s);
    case Nested(inner, rest) =>
      ThroughBody(rest, s, d);
      ThroughBody(inner, Text(rest) + s, d + 1);
      OneByte('{', Text(inner) + (Text(rest) + s), Scan(d, false, false));
      Regroup(['{'], Text(inner), [], Text(rest), s);
  }

  lemma Regroup(a: string, b: string, c: string, d: string, s: string)
    ensures (a + (b + (c + d))) + s == a + (b + (c + (d + s)))
    ensures c == [] ==> c + d == d && c + (d + s) == d + s
  {
  }

  lemma LastBrace(s: string, d: int)
    requires d > 0
    ensures ItemEnd("}" + s, Scan(d, false, false)) == After(1, s, d)
  {
    assert ("}" + s)[1..] == s;
  }

  lemma ThroughLiteral(chars: seq<StringChar>, s: string, d: int)
    requires d > 0 && forall i :: 0 <= i < |chars| ==> WellFormedChar(chars[i])
    ensures ItemEnd(['"'] + (CharsText(chars) + (['"'] + s)), Scan(d, false, false)) ==
            Further(|CharsText(chars)| + 2, ItemEnd(s, Scan(d, false, false)))
  {
    hide ItemEnd, WellFormedChar, CharsText;
    OneByte('"', s, Scan(d, true, false));
    ThroughChars(chars, ['"'] + s, d);
    OneByte('"', CharsText(chars) + (['"'] + s), Scan(d, false, false));
  }

  lemma {:induction false} SkipSeparators(sep: string, s: string, i: nat, accept: nat -> bool, end: End)
    requires AllSeparators(sep)
    ensures Between(sep + s, i, accept, end) == Between(s, i, accept, end)
    decreases |sep|
  {
    if sep == "" {
      assert sep + s == s;
    } else {
      assert (sep + s)[1..] == sep[1..] + s;
      SkipSeparators(sep[1..], s, i, accept, end);
    }
  }

  lemma OneObject(b: Body, s: string, i: nat, accept: nat -> bool, end: End)
    requires WellFormed(b)
    ensures Between(Object(b) + s, i, accept, end) ==
            if accept(i) then Prepend([Pipe(Object(b), true)], Between(s, i + 1, accept, end))
            else Outcome([Pipe("", true)], CallbackError(i))
  {
    var t := Text(b) + s;
    ThroughBody(b, s, 1);
    assert (Object(b) + s)[1..] == t && t[..|Text(b)|] == Text(b) && t[|Text(b)|..] == s;
  }

  /** What is delivered of the objects when the callbacks accept the first `k` of them. */
  lemma {:induction false} ThroughArray(seps: seq<string>, bodies: seq<Body>, s: string, i: nat, accept: nat -> bool,
                                        end: End)
    requires Parts(seps, bodies) && forall k :: i <= k < i + |bodies| ==> accept(k)
    ensures Between(Weave(seps, bodies) + s, i, accept, end) ==
            Prepend(Delivered(bodies), Between(s, i + |bodies|, accept, end))
    decreases |bodies|
  {
    hide Between, WellFormed;
    if bodies == [] {
      SkipSeparators(seps[0], s, i, accept, end);
    } else {
      var rest := Weave(seps[1..], bodies[1..]) + s;
      assert Weave(seps, bodies) + s == seps[0] + (Object(bodies[0]) + rest);
      SkipSeparators(seps[0], Object(bodies[0]) + rest, i, accept, end);
      OneObject(bodies[0], rest, i, accept, end);
      ThroughArray(seps[1..], bodies[1..], s, i + 1, accept, end);
      PrependTwice([Pipe(Object(bodies[0]), true)], Delivered(bodies[1..]), Between(s, i + |bodies|, accept, end));
    }
  }

  /** An array is split into exactly the objects it was joined from, whatever separates them and whatever follows it. */
  lemma SplitUndoesJoin(pre: string, seps: seq<string>, bodies: seq<Body>, tail: string, accept: nat -> bool, end: End,
                        together: bool)
    requires AllWhitespace(pre) && Parts(seps, bodies) && forall k :: 0 <= k < |bodies| ==> accept(k)
    ensures Before(pre + ("[" + (Weave(seps, bodies) + ("]" + tail))), accept, end, together)
            == Outcome(Delivered(bodies), Nil)
  {
    hide WellFormed, AllSeparators, Weave;
    SkipWhitespace(pre, Weave(seps, bodies) + ("]" + tail), accept, end, together);
    ThroughArray(seps, bodies, "]" + tail, 0, accept, end);
  }

  lemma {:induction false} SkipWhitespace(pre: string, s: string, accept: nat -> bool, end: End, together: bool)
    requires AllWhitespace(pre)
    ensures Before(pre + ("[" + s), accept, end, together) == Between(s, 0, accept, end)
    decreases |pre|
  {
    hide Between;
    if pre == "" {
      assert pre + ("[" + s) == "[" + s && ("[" + s)[1..] == s;
    } else {
      assert (pre + ("[" + s))[1..] == pre[1..] + ("[" + s);
      SkipWhitespace(pre[1..], s, accept, end, together);
    }
  }

  /** When a callback refuses, the objects before it were delivered, its own pipe is closed empty, and nothing else is
      read. */
  lemma RefusalStops(pre: string, seps: seq<string>, bodies: seq<Body>, s: string, k: nat, accept: nat -> bool,
                     end: End, together: bool)
    requires AllWhitespace(pre) && Parts(seps, bodies) && k < |bodies|
    requires !accept(k) && forall j :: 0 <= j < k ==> accept(j)
    ensures Before(pre + ("[" + (Weave(seps, bodies) + s)), accept, end, together) ==
            Outcome(Delivered(bodies[..k]) + [Pipe("", true)], CallbackError(k))
  {
    hide WellFormed, AllSeparators, Weave, Before, Between, Object;
    WeaveSplit(seps, bodies, k);
    var rest := Weave(seps[k + 1..], bodies[k + 1..]) + s;
    assert Parts(seps[..k + 1], bodies[..k]) && WellFormed(bodies[k]) by {
      PartsSplit(seps, bodies, k);
    }
    assert Weave(seps, bodies) + s == Weave(seps[..k + 1], bodies[..k]) + (Object(bodies[k]) + rest);
    SkipWhitespace(pre, Weave(seps, bodies) + s, accept, end, together);
    ThroughArray(seps[..k + 1], bodies[..k], Object(bodies[k]) + rest, 0, accept, end);
    OneObject(bodies[k], rest, k, accept, end);
  }

  lemma PartsSplit(seps: seq<string>, bodies: seq<Body>, k: nat)
    requires Parts(seps, bodies) && k < |bodies|
    ensures Parts(seps[..k + 1], bodies[..k]) && WellFormed(bodies[k])
  {
    hide WellFormed, AllSeparators;
  }

  lemma {:induction false} WeaveSplit(seps: seq<string>, bodies: seq<Body>, k: nat)
    requires |seps| == |bodies| + 1 && k < |bodies|
    ensures Weave(seps, bodies)
            == Weave(seps[..k + 1], bodies[..k]) + (Object(bodies[k]) + Weave(seps[k + 1..], bodies[k + 1..]))
  {
    hide Object;
    if k > 0 {
      WeaveSplit(seps[1..], bodies[1..], k - 1);
      assert seps[..k + 1][1..] == seps[1..][..k] && bodies[..k][1..] == bodies[1..][..k - 1];
      assert seps[1..][k..] == seps[k + 1..] && bodies[1..][k..] == bodies[k + 1..];
    }
  }

  /** What is found to be an object stays one, whatever follows it. */
  lemma {:induction false} ItemEndWith(s: string, x: string, q: Scan)
    requires ItemEnd(s, q).Some?
    ensures ItemEnd(s + x, q) == ItemEnd(s, q)
    decreases |s|
  {
    assert (s + x)[1..] == s[1..] + x;
    if Advance(q, s[0]).depth != 0 {
      ItemEndWith(s[1..], x, Advance(q, s[0]));
    }
  }

  /** No front part of a balanced object is one. */
  lemma FrontIsNoObject(b: Body, n: nat)
    requires WellFormed(b) && n < |Text(b)|
    ensures ItemEnd(Text(b)[..n], Scan(1, false, false)).None?
  {
    var t := Text(b);
    ThroughBody(b, "", 1);
    assert t + "" == t && t[..n] + t[n..] == t;
    if ItemEnd(t[..n], Scan(1, false, false)).Some? {
      ItemEndWith(t[..n], t[n..], Scan(1, false, false));
    }
  }

  /** When the input ends inside an object, or its reader fails there, the objects before it were delivered, and its
      own pipe has the bytes that came, closed at the end of the file only. Between objects the end of the file is no
      error. */
  lemma CutOff(pre: string, seps: seq<string>, bodies: seq<Body>, b: Body, n: nat, accept: nat -> bool, end: End,
               together: bool)
    requires AllWhitespace(pre) && Parts(seps, bodies) && WellFormed(b) && n < |Text(b)|
    requires forall k :: 0 <= k <= |bodies| ==> accept(k)
    ensures Before(pre + ("[" + (Weave(seps, bodies) + ("{" + Text(b)[..n]))), accept, end, together)
            == Outcome(Delivered(bodies) + [Pipe("{" + Text(b)[..n], end == EOF)],
                       if end == EOF then UnexpectedEOF else ReadError)
    ensures Before(pre + ("[" + Weave(seps, bodies)), accept, end, together)
            == Outcome(Delivered(bodies), if end == EOF then Nil else ReadError)
  {
    hide WellFormed, AllSeparators, Weave, Text, ItemEnd;
    var part := Text(b)[..n];
    FrontIsNoObject(b, n);
    SkipWhitespace(pre, Weave(seps, bodies) + ("{" + part), accept, end, together);
    ThroughArray(seps, bodies, "{" + part, 0, accept, end);
    assert ("{" + part)[1..] == part;
    SkipWhitespace(pre, Weave(seps, bodies), accept, end, together);
    ThroughArray(seps, bodies, "", 0, accept, end);
    assert Weave(seps, bodies) + "" == Weave(seps, bodies) && Delivered(bodies) + [] == Delivered(bodies);
  }

  /** Any other byte between objects, or in front of the array, is refused, and the objects before it are delivered. */
  lemma OtherByteIsRefused(pre: string, seps: seq<string>, bodies: seq<Body>, c: char, s: string,
                           accept: nat -> bool, end: End, together: bool)
    requires AllWhitespace(pre) && Parts(seps, bodies) && forall k :: 0 <= k < |bodies| ==> accept(k)
    requires c != ' ' && c != '\t' && c != '\n' && c != '\r'
    ensures c != ',' && c != '{' && c != ']' ==>
              Before(pre + ("[" + (Weave(seps, bodies) + ([c] + s))), accept, end, together)
              == Outcome(Delivered(bodies), NotObject(c))
    ensures c != '[' ==> Before(pre + ([c] + s), accept, end, together) == Outcome([], NotArray(c))
  {
    hide WellFormed, AllSeparators, Weave, Inside;
    if c != ',' && c != '{' && c != ']' {
      SkipWhitespace(pre, Weave(seps, bodies) + ([c] + s), accept, end, together);
      ThroughArray(seps, bodies, [c] + s, 0, accept, end);
    }
    if c != '[' {
      NoArray(pre, c, s, accept, end, together);
    }
  }

  lemma {:induction false} NoArray(pre: string, c: char, s: string, accept: nat -> bool, end: End, together: bool)
    requires AllWhitespace(pre) && c != ' ' && c != '\t' && c != '\n' && c != '\r' && c != '['
    ensures Before(pre + ([c] + s), accept, end, together) == Outcome([], NotArray(c))
    decreases |pre|
  {
    hide Between;
    if pre == "" {
      assert pre + ([c] + s) == [c] + s;
    } else {
      assert (pre + ([c] + s))[1..] == pre[1..] + ([c] + s);
      NoArray(pre[1..], c, s, accept, end, together);
    }
  }

  // ----- Joining undoes splitting -----

  /** What the scanner has still to read: the rest of a string literal, when it is inside one, and a body for each
      level. */
  datatype Tail = Tail(chars: seq<StringChar>, bodies: seq<Body>)

  function BodiesText(bodies: seq<Body>): string {
    if bodies == [] then "" else Text(bodies[0]) + BodiesText(bodies[1..])
  }

  predicate Fits(t: Tail, q: Scan) {
    && |t.bodies| == q.depth
    && (forall i :: 0 <= i < |t.bodies| ==> WellFormed(t.bodies[i]))
    && (forall i :: 0 <= i < |t.chars| ==> WellFormedChar(t.chars[i]))
    && (!q.inString ==> t.chars == [])
    && (q.escaped ==> t.chars != [] && t.chars[0].Escape?)
  }

  function TailText(t: Tail, q: Scan): string
    requires Fits(t, q)
  {
    if q.escaped then [t.chars[0].c] + (CharsText(t.chars[1..]) + ("\"" + BodiesText(t.bodies)))
    else if q.inString then CharsText(t.chars) + ("\"" + BodiesText(t.bodies))
    else BodiesText(t.bodies)
  }

  predicate Sane(q: Scan) {
    q.depth > 0 && (q.escaped ==> q.inString)
  }

  /** What was still to read before byte `c`, from what is still to read after it. */
  function Cons(q: Scan, c: char, t: Tail): Tail
    requires Sane(q) && Fits(t, Advance(q, c))
  {
    if q.escaped then t.(chars := [Escape(c)] + t.chars)
    else if q.inString then
      if c == '\\' then t else if c == '"' then t.(chars := []) else t.(chars := [Raw(c)] + t.chars)
    else if c == '"' then Tail([], [Literal(t.chars, t.bodies[0])] + t.bodies[1..])
    else if c == '{' then Tail([], [Nested(t.bodies[0], t.bodies[1])] + t.bodies[2..])
    else if c == '}' then Tail([], [Close] + t.bodies)
    else Tail([], [Plain(c, t.bodies[0])] + t.bodies[1..])
  }

  lemma ConsFits(q: Scan, c: char, t: Tail)
    requires Sane(q) && Fits(t, Advance(q, c))
    ensures Fits(Cons(q, c, t), q)
  {
  }

  lemma ConsText(q: Scan, c: char, t: Tail)
    requires Sane(q) && Fits(t, Advance(q, c)) && Fits(Cons(q, c, t), q)
    ensures TailText(Cons(q, c, t), q) == [c] + TailText(t, Advance(q, c))
  {
    hide WellFormed, WellFormedChar, CharsText, BodiesText;
    if q.inString {
      ConsInString(q, c, t);
    } else if c == '{' {
      var b, inner, rest := t.bodies[0], t.bodies[1], t.bodies[2..];
      assert t.bodies == [b] + ([inner] + rest);
      BodiesCons(inner, rest);
      BodiesCons(b, [inner] + rest);
      BodiesCons(Nested(b, inner), rest);
      Regroup(['{'], Text(b), [], Text(inner), BodiesText(rest));
    } else if c == '}' {
      BodiesCons(Close, t.bodies);
    } else {
      var b, rest := t.bodies[0], t.bodies[1..];
      assert t.bodies == [b] + rest;
      BodiesCons(b, rest);
      BodiesCons(if c == '"' then Literal(t.chars, b) else Plain(c, b), rest);
      Regroup([c], CharsText(t.chars), [c], Text(b), BodiesText(rest));
    }
  }

  lemma BodiesCons(b: Body, bodies: seq<Body>)
    ensures BodiesText([b] + bodies) == Text(b) + BodiesText(bodies)
  {
    hide Text;
    assert ([b] + bodies)[1..] == bodies;
  }

  lemma ConsInString(q: Scan, c: char, t: Tail)
    requires q.inString && Sane(q) && Fits(t, Advance(q, c)) && Fits(Cons(q, c, t), q)
    ensures TailText(Cons(q, c, t), q) == [c] + TailText(t, Advance(q, c))
  {
    hide BodiesText, WellFormed, WellFormedChar;
    var u := Cons(q, c, t);
    if q.escaped {
      assert u.chars[1..] == t.chars;
    } else if c == '\\' {
      assert CharsText(t.chars) == ['\\', t.chars[0].c] + CharsText(t.chars[1..]);
    } else if c != '"' {
      assert u.chars[1..] == t.chars;
      Assoc([c], CharsText(t.chars), "\"" + BodiesText(t.bodies));
    }
  }

  /** The bytes up to the end of an object are the text of some bodies. */
  lemma {:induction false} ReadBack(s: string, q: Scan) returns (t: Tail)
    requires Sane(q) && ItemEnd(s, q).Some?
    ensures Fits(t, q) && s[..ItemEnd(s, q).value] == TailText(t, q)
    decreases |s|
  {
    hide Fits, TailText, Cons;
    var n, q' := ItemEnd(s, q).value, Advance(q, s[0]);
    var u;
    if q'.depth == 0 {
      u := Tail([], []);
      NothingLeft(q');
      assert s[..1] == [s[0]] + "";
    } else {
      u := ReadBack(s[1..], q');
      assert s[..n] == [s[0]] + s[1..][..n - 1];
    }
    t := Cons(q, s[0], u);
    ConsFits(q, s[0], u);
    ConsText(q, s[0], u);
  }

  lemma NothingLeft(q: Scan)
    requires q.depth == 0 && !q.inString && !q.escaped
    ensures Fits(Tail([], []), q) && TailText(Tail([], []), q) == ""
  {
  }

  /** How an input that was accepted is made up. */
  datatype Reading = Reading(pre: string, reached: bool, seps: seq<string>, bodies: seq<Body>, closed: bool,
                             tail: string)

  /** Everything behind the `[`. */
  function Inner(r: Reading): string
    requires Parts(r.seps, r.bodies)
  {
    Weave(r.seps, r.bodies) + if r.closed then "]" + r.tail else ""
  }

  lemma {:induction false} BetweenReadBack(s: string, i: nat, accept: nat -> bool, end: End) returns (r: Reading)
    requires Between(s, i, accept, end).result == Nil
    ensures Parts(r.seps, r.bodies) && s == Inner(r) && (r.closed || end == EOF)
    ensures Between(s, i, accept, end).items == Delivered(r.bodies)
    ensures forall k :: i <= k < i + |r.bodies| ==> accept(k)
    decreases |s|
  {
    hide WellFormed, Object, ItemEnd, Parts, Inner, Delivered;
    if s == "" || s[0] == ']' {
      r := NoMore(s);
    } else if IsSeparator(s[0]) {
      var u := BetweenReadBack(s[1..], i, accept, end);
      r := Widen(s[0], u);
      WiderSeparator(s[0], u);
    } else {
      var t, n := s[1..], ItemEnd(s[1..], Scan(1, false, false)).value;
      var b := ReadOne(t);
      var u := BetweenReadBack(t[n..], i + 1, accept, end);
      r := Extend(b, u);
      OneMore(b, u);
      assert s == ("{" + t[..n]) + t[n..];
    }
  }

  lemma NoMore(s: string) returns (r: Reading)
    requires s == "" || s[0] == ']'
    ensures Parts(r.seps, r.bodies) && s == Inner(r) && r.closed == (s != "") && r.bodies == []
    ensures Delivered(r.bodies) == []
  {
    r := Reading("", true, [""], [], s != "", if s == "" then "" else s[1..]);
    assert s != "" ==> s == "]" + s[1..];
  }

  function Widen(c: char, u: Reading): Reading
    requires Parts(u.seps, u.bodies)
  {
    u.(seps := [[c] + u.seps[0]] + u.seps[1..])
  }

  function Extend(b: Body, u: Reading): Reading {
    u.(seps := [""] + u.seps, bodies := [b] + u.bodies)
  }

  lemma ReadOne(s: string) returns (b: Body)
    requires ItemEnd(s, Scan(1, false, false)).Some?
    ensures WellFormed(b) && Object(b) == "{" + s[..ItemEnd(s, Scan(1, false, false)).value]
  {
    hide ItemEnd, WellFormed;
    var t := ReadBack(s, Scan(1, false, false));
    b := t.bodies[0];
    assert t.bodies == [b] + [];
    BodiesCons(b, []);
  }

  lemma WiderSeparator(c: char, u: Reading)
    requires Parts(u.seps, u.bodies) && IsSeparator(c)
    ensures var r := Widen(c, u); Parts(r.seps, r.bodies) && Inner(r) == [c] + Inner(u)
  {
    hide WellFormed, Object;
    var seps := [[c] + u.seps[0]] + u.seps[1..];
    assert seps[1..] == u.seps[1..];
    if u.bodies != [] {
      Assoc([c], u.seps[0], Object(u.bodies[0]) + Weave(u.seps[1..], u.bodies[1..]));
    }
  }

  lemma OneMore(b: Body, u: Reading)
    requires Parts(u.seps, u.bodies) && WellFormed(b)
    ensures var r := Extend(b, u);
            && |r.bodies| == 1 + |u.bodies|
            && Parts(r.seps, r.bodies) && Inner(r) == Object(b) + Inner(u)
            && Delivered(r.bodies) == [Pipe(Object(b), true)] + Delivered(u.bodies)
  {
    hide WellFormed, Object, AllSeparators;
    var seps, bodies := [""] + u.seps, [b] + u.bodies;
    assert seps[1..] == u.seps && bodies[1..] == u.bodies;
    assert AllSeparators("") by { AllSeparatorsEmpty(); }
    assert Weave(seps, bodies) == Object(b) + Weave(u.seps, u.bodies);
  }

  lemma AllSeparatorsEmpty()
    ensures AllSeparators("")
  {
  }

  /** What the splitter accepts: white space, then unless the reader ends there, an array of brace-balanced
      objects with any separators, which may be cut off between two objects. */
  ghost predicate Accepted(s: string, r: Reading, accept: nat -> bool, end: End, together: bool) {
    && Parts(r.seps, r.bodies) && AllWhitespace(r.pre)
    && s == r.pre + (if r.reached then "[" + Inner(r) else "")
    && (!r.reached ==> end == EOF && r.bodies == [] && (s != "" ==> !together))
    && (!r.closed ==> end == EOF)
    && forall k :: 0 <= k < |r.bodies| ==> accept(k)
  }

  /** Whatever is accepted has that shape, and the pipes carry its objects. */
  lemma {:induction false} JoinUndoesSplit(s: string, accept: nat -> bool, end: End, together: bool)
    returns (r: Reading)
    requires Before(s, accept, end, together).result == Nil
    ensures Accepted(s, r, accept, end, together) && Before(s, accept, end, together).items == Delivered(r.bodies)
    decreases |s|
  {
    hide Between, Inner;
    if s == "" {
      AllSeparatorsEmpty();
      r := Reading("", false, [""], [], false, "");
    } else if IsWhitespaceByte(s[0]) {
      var u := JoinUndoesSplit(s[1..], accept, end, together);
      r := u.(pre := [s[0]] + u.pre);
      assert s == [s[0]] + s[1..] && Inner(r) == Inner(u) by { SameInner(u, r); }
      Assoc([s[0]], u.pre, if u.reached then "[" + Inner(u) else "");
    } else {
      var u := BetweenReadBack(s[1..], 0, accept, end);
      r := u.(pre := "", reached := true);
      assert s == "[" + s[1..] && Inner(r) == Inner(u) by { SameInner(u, r); }
    }
  }

  lemma SameInner(u: Reading, r: Reading)
    requires Parts(u.seps, u.bodies) && r.seps == u.seps && r.bodies == u.bodies && r.closed == u.closed
    requires r.tail == u.tail
    ensures Inner(r) == Inner(u)
  {
  }

  /** ... and everything of that shape is accepted. */
  lemma ShapeIsAccepted(s: string, r: Reading, accept: nat -> bool, end: End, together: bool)
    requires Accepted(s, r, accept, end, together)
    ensures Before(s, accept, end, together) == Outcome(Delivered(r.bodies), Nil)
  {
    hide Weave, WellFormed, Between, Before;
    if !r.reached {
      assert r.pre + "" == r.pre;
      OnlyWhitespace(s, accept, end, together);
    } else if r.closed {
      SplitUndoesJoin(r.pre, r.seps, r.bodies, r.tail, accept, end, together);
    } else {
      SkipWhitespace(r.pre, Inner(r), accept, end, together);
      ThroughArray(r.seps, r.bodies, "", 0, accept, end);
      NothingMore(|r.bodies|, accept, end);
    }
  }

  lemma NothingMore(i: nat, accept: nat -> bool, end: End)
    ensures Between("", i, accept, end) == Outcome([], if end == EOF then Nil else ReadError)
  {
  }

  lemma {:induction false} OnlyWhitespace(s: string, accept: nat -> bool, end: End, together: bool)
    requires AllWhitespace(s) && end == EOF && (s != "" ==> !together)
    ensures Before(s, accept, end, together) == Outcome([], Nil)
    decreases |s|
  {
    if s != "" {
      OnlyWhitespace(s[1..], accept, end, together);
    }
  }
}

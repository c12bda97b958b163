/** agent/session/llm_stream.go: the splitter that separates visible text from `<think>`
    reasoning in a text that arrives in arbitrary chunks. */
module ReasoningStream {
  import opened GoStrings

  datatype Kind = Text | Reasoning

  datatype Segment = Segment(kind: Kind, text: string)

  /** What a position of the input turns into: a byte of the text or of the reasoning, or a switch
      between the two (a whole tag). */
  datatype Event = Byte(kind: Kind, c: char) | Switch

  const START_TAG := "<think>"
  const END_TAG := "</think>"

  function Other(m: Kind): Kind {
    if m.Text? then Reasoning else Text
  }

  /** The tag that ends mode `m`. */
  function Tag(m: Kind): string {
    if m.Text? then START_TAG else END_TAG
  }

  // ----- The reference: a one-shot parse of the whole input -----

  /** Reads the whole of `s` in one go, byte by byte, starting in mode `m`. */
  function Parse(m: Kind, s: string): seq<Event>
    decreases |s|
  {
    if s == "" then []
    else if Tag(m) <= s then [Switch] + Parse(Other(m), s[|Tag(m)|..])
    else [Byte(m, s[0])] + Parse(m, s[1..])
  }

  function ModeAfter(m: Kind, log: seq<Event>): Kind
    decreases |log|
  {
    if log == [] then m
    else ModeAfter(if log[0].Switch? then Other(m) else m, log[1..])
  }

  /** The input that a log stands for: every switch is written back as the tag that caused it. */
  function Unparse(m: Kind, log: seq<Event>): string
    decreases |log|
  {
    if log == [] then ""
    else if log[0].Switch? then Tag(m) + Unparse(Other(m), log[1..])
    else [log[0].c] + Unparse(m, log[1..])
  }

  /** What a reader sees of a log: the bytes with their kinds, without the tags. */
  function Visible(log: seq<Event>): seq<(Kind, char)> {
    if log == [] then []
    else (if log[0].Switch? then [] else [(log[0].kind, log[0].c)]) + Visible(log[1..])
  }

  /** Each byte carries the current mode, and no tag of the current mode starts at a byte. */
  predicate Canonical(m: Kind, log: seq<Event>)
    decreases |log|
  {
    log == [] ||
    if log[0].Switch? then Canonical(Other(m), log[1..])
    else log[0].kind == m && !(Tag(m) <= Unparse(m, log)) && Canonical(m, log[1..])
  }

  lemma {:induction false} UnparseParse(m: Kind, s: string)
    ensures Unparse(m, Parse(m, s)) == s
    ensures Canonical(m, Parse(m, s))
    decreases |s|
  {
    if s != "" {
      if Tag(m) <= s {
        UnparseParse(Other(m), s[|Tag(m)|..]);
      } else {
        UnparseParse(m, s[1..]);
      }
    }
  }

  /** `Parse` is the inverse of `Unparse` exactly on the canonical logs; so `Parse(m, s)` is the only
      canonical log that stands for `s`. */
  lemma {:induction false} ParseUnparse(m: Kind, log: seq<Event>)
    ensures Parse(m, Unparse(m, log)) == log <==> Canonical(m, log)
    decreases |log|
  {
    var s := Unparse(m, log);
    if Canonical(m, log) && log != [] {
      if log[0].Switch? {
        ParseUnparse(Other(m), log[1..]);
        assert s[|Tag(m)|..] == Unparse(Other(m), log[1..]);
      } else {
        ParseUnparse(m, log[1..]);
        assert s[1..] == Unparse(m, log[1..]);
      }
    }
    if Parse(m, s) == log {
      UnparseParse(m, s);
    }
  }

  // ----- Facts about the reference that the chunked splitter needs -----

  function Bytes(m: Kind, s: string): seq<Event> {
    seq(|s|, i requires 0 <= i < |s| => Byte(m, s[i]))
  }

  /** As long as no tag starts in the first `k` positions, they are plain bytes. */
  lemma {:induction false} ParsePeel(m: Kind, s: string, k: nat)
    requires k <= |s|
    requires forall j :: 0 <= j < k ==> !OccursAt(s, Tag(m), j)
    ensures Parse(m, s) == Bytes(m, s[..k]) + Parse(m, s[k..])
    decreases k
  {
    if k == 0 {
      assert s[0..] == s;
    } else {
      OccursAtFront(s, Tag(m));
      var t := s[1..];
      forall j | 0 <= j < k - 1 ensures !OccursAt(t, Tag(m), j) {
        OccursInTail(s, Tag(m), j);
      }
      ParsePeel(m, t, k - 1);
      assert s[k..] == t[k - 1..];
      var head, init := [Byte(m, s[0])], Bytes(m, t[..k - 1]);
      assert Bytes(m, s[..k]) == head + init;
      Assoc(head, init, Parse(m, t[k - 1..]));
    }
  }

  /** Text that follows a buffer does not move the places where a tag fits into the buffer. */
  lemma OccursInPrefix(b: string, rest: string, t: string, j: nat)
    requires j + |t| <= |b|
    ensures OccursAt(b + rest, t, j) == OccursAt(b, t, j)
  {
    assert (b + rest)[j..j + |t|] == b[j..j + |t|];
  }

  /** The first tag of a buffer is a switch whatever follows. */
  lemma ParseAtTag(m: Kind, b: string, rest: string)
    requires Index(b, Tag(m)) != -1
    ensures var i := Index(b, Tag(m));
            Parse(m, b + rest) == Bytes(m, b[..i]) + [Switch] + Parse(Other(m), b[i + |Tag(m)|..] + rest)
  {
    var t := Tag(m);
    var i := Index(b, t);
    var s := b + rest;
    forall j | 0 <= j < i ensures !OccursAt(s, t, j) {
      OccursInPrefix(b, rest, t, j);
    }
    hide Parse, Bytes, OccursAt, Index;
    ParsePeel(m, s, i);
    TagInFront(b, rest, t, i);
    ParseSwitch(m, s[i..]);
    Assoc(Bytes(m, b[..i]), [Switch], Parse(Other(m), b[i + |t|..] + rest));
  }

  lemma TagInFront(b: string, rest: string, t: string, i: nat)
    requires OccursAt(b, t, i)
    ensures i + |t| <= |b|
    ensures var s := b + rest; s[..i] == b[..i] && t <= s[i..] && s[i..][|t|..] == b[i + |t|..] + rest
  {
    assert (b + rest)[i..][..|t|] == b[i..i + |t|];
  }

  lemma ParseSwitch(m: Kind, s: string)
    requires Tag(m) <= s
    ensures Parse(m, s) == [Switch] + Parse(Other(m), s[|Tag(m)|..])
  {
  }

  /** Without a tag in the buffer, all but the last |tag|-1 bytes are safe to emit. */
  lemma ParseCarry(m: Kind, b: string, rest: string)
    requires Index(b, Tag(m)) == -1 && |b| >= |Tag(m)|
    ensures var safe := |b| - (|Tag(m)| - 1);
            Parse(m, b + rest) == Bytes(m, b[..safe]) + Parse(m, b[safe..] + rest)
  {
    var t := Tag(m);
    var safe := |b| - (|t| - 1);
    var s := b + rest;
    forall j | 0 <= j < safe ensures !OccursAt(s, t, j) {
      OccursInPrefix(b, rest, t, j);
    }
    ParsePeel(m, s, safe);
    assert s[..safe] == b[..safe];
    assert s[safe..] == b[safe..] + rest;
  }

  /** At the end of the input a buffer without a tag is all bytes. */
  lemma ParseFlush(m: Kind, b: string)
    requires Index(b, Tag(m)) == -1
    ensures Parse(m, b) == Bytes(m, b)
  {
    ParsePeel(m, b, |b|);
    assert b[..|b|] == b;
  }

  lemma {:induction false} VisibleConcat(a: seq<Event>, b: seq<Event>)
    ensures Visible(a + b) == Visible(a) + Visible(b)
  {
    if a == [] {
      assert a + b == b;
    } else {
      VisibleConcat(a[1..], b);
      assert (a + b)[1..] == a[1..] + b && (a + b)[0] == a[0];
      var head := if a[0].Switch? then [] else [(a[0].kind, a[0].c)];
      Assoc(head, Visible(a[1..]), Visible(b));
    }
  }

  lemma {:induction false} UnparseConcat(m: Kind, a: seq<Event>, b: seq<Event>)
    ensures Unparse(m, a + b) == Unparse(m, a) + Unparse(ModeAfter(m, a), b)
    ensures ModeAfter(m, a + b) == ModeAfter(ModeAfter(m, a), b)
    decreases |a|
  {
    if a == [] {
      assert a + b == b;
    } else {
      var next := if a[0].Switch? then Other(m) else m;
      UnparseConcat(next, a[1..], b);
      assert (a + b)[1..] == a[1..] + b && (a + b)[0] == a[0];
      var head := if a[0].Switch? then Tag(m) else [a[0].c];
      var last := Unparse(ModeAfter(m, a), b);
      Assoc(head, Unparse(next, a[1..]), last);
    }
  }

  // ----- Which tag does what -----

  ghost predicate Has(s: string, t: string) {
    exists j :: OccursAt(s, t, j)
  }

  /** A tag behind a text without one is the first one: it does not start inside the text, since a tag has its `<` at
      its start alone. */
  lemma FirstTag(a: string, m: Kind)
    requires !Has(a, Tag(m))
    ensures Index(a + Tag(m), Tag(m)) == |a|
  {
    var t := Tag(m);
    var s := a + t;
    assert OccursAt(s, t, |a|);
    forall j | 0 <= j < |a|
      ensures !OccursAt(s, t, j)
    {
      if j + |t| <= |a| {
        OccursInPrefix(a, t, t, j);
      } else if OccursAt(s, t, j) {
        ByteOf(s, t, j, |a| - j);
      }
    }
  }

  lemma ByteOf(s: string, t: string, j: int, k: nat)
    requires OccursAt(s, t, j) && k < |t|
    ensures s[j + k] == t[k]
  {
    assert s[j..j + |t|][k] == s[j + k];
  }

  lemma SwitchAt(m: Kind, a: string, rest: string)
    requires !Has(a, Tag(m))
    ensures Parse(m, a + (Tag(m) + rest)) == Bytes(m, a) + ([Switch] + Parse(Other(m), rest))
  {
    hide Parse, Index, OccursAt;
    var t := Tag(m);
    FirstTag(a, m);
    ParseAtTag(m, a + t, rest);
    Assoc(a, t, rest);
    assert (a + t)[..|a|] == a && (a + t)[|a| + |t|..] + rest == rest;
    Assoc(Bytes(m, a), [Switch], Parse(Other(m), rest));
  }

  lemma NoTag(m: Kind, a: string)
    requires !Has(a, Tag(m))
    ensures Visible(Parse(m, a)) == Tagged(m, a)
  {
    hide Parse, Visible;
    ParseFlush(m, a);
    VisibleBytes(m, a);
  }

  lemma VisibleSwitch(m: Kind, a: string, log: seq<Event>)
    ensures Visible(Bytes(m, a) + ([Switch] + log)) == Tagged(m, a) + Visible(log)
  {
    VisibleConcat(Bytes(m, a), [Switch] + log);
    VisibleBytes(m, a);
    assert ([Switch] + log)[1..] == log;
    assert [] + Visible(log) == Visible(log);
  }

  /** `<think>` opens reasoning and `</think>` ends it; what is behind is read like a new text. */
  lemma ThinkBlock(a: string, r: string, b: string)
    requires !Has(a, "<think>") && !Has(r, "</think>")
    ensures Visible(Parse(Text, a + ("<think>" + (r + ("</think>" + b)))))
            == Tagged(Text, a) + (Tagged(Reasoning, r) + Visible(Parse(Text, b)))
  {
    hide Parse, Visible, Has, Bytes;
    var rest := r + ("</think>" + b);
    SwitchAt(Text, a, rest);
    SwitchAt(Reasoning, r, b);
    VisibleSwitch(Text, a, Parse(Reasoning, rest));
    VisibleSwitch(Reasoning, r, Parse(Text, b));
  }

  /** A text without `<think>` is all text. */
  lemma PlainText(a: string)
    requires !Has(a, "<think>")
    ensures Visible(Parse(Text, a)) == Tagged(Text, a)
  {
    NoTag(Text, a);
  }

  /** A `<think>` that is not closed leaves the rest as reasoning. */
  lemma OpenThink(a: string, r: string)
    requires !Has(a, "<think>") && !Has(r, "</think>")
    ensures Visible(Parse(Text, a + ("<think>" + r))) == Tagged(Text, a) + Tagged(Reasoning, r)
  {
    hide Parse, Visible, Has, Bytes;
    SwitchAt(Text, a, r);
    NoTag(Reasoning, r);
    VisibleSwitch(Text, a, Parse(Reasoning, r));
  }

  /** A text as it was written: plain text and reasoning in turn. */
  datatype Written = Plain(text: string) | Open(text: string, thought: string)
                   | Block(text: string, thought: string, rest: Written)

  function Source(w: Written): string {
    match w
    case Plain(text) => text
    case Open(text, thought) => text + ("<think>" + thought)
    case Block(text, thought, rest) => text + ("<think>" + (thought + ("</think>" + Source(rest))))
  }

  ghost predicate Proper(w: Written) {
    && !Has(w.text, "<think>")
    && (!w.Plain? ==> !Has(w.thought, "</think>"))
    && (w.Block? ==> Proper(w.rest))
  }

  function Meant(w: Written): seq<(Kind, char)> {
    match w
    case Plain(text) => Tagged(Text, text)
    case Open(text, thought) => Tagged(Text, text) + Tagged(Reasoning, thought)
    case Block(text, thought, rest) => Tagged(Text, text) + (Tagged(Reasoning, thought) + Meant(rest))
  }

  /** The parse gives what was written, block by block. */
  lemma {:induction false} ReadsAsWritten(w: Written)
    requires Proper(w)
    ensures Visible(Parse(Text, Source(w))) == Meant(w)
    decreases w
  {
    hide Parse, Visible, Has;
    match w
    case Plain(text) => PlainText(text);
    case Open(text, thought) => OpenThink(text, thought);
    case Block(text, thought, rest) =>
      ReadsAsWritten(rest);
      ThinkBlock(text, thought, Source(rest));
  }

  lemma AllReadings(s: string)
    ensures forall w :: Proper(w) && Source(w) == s ==> Visible(Parse(Text, s)) == Meant(w)
  {
    hide Proper, Source, Meant, Parse, Visible;
    forall w | Proper(w) && Source(w) == s
      ensures Visible(Parse(Text, s)) == Meant(w)
    {
      ReadsAsWritten(w);
    }
  }

  /** Every input can be read that way. */
  lemma {:induction false} EverythingIsWritten(s: string) returns (w: Written)
    ensures Proper(w) && Source(w) == s
    decreases |s|
  {
    hide Index;
    var i := Index(s, "<think>");
    if i == -1 {
      return Plain(s);
    }
    Cut(s, "<think>", i);
    var inside := s[i + 7..];
    var k := Index(inside, "</think>");
    if k == -1 {
      return Open(s[..i], inside);
    }
    Cut(inside, "</think>", k);
    var rest := EverythingIsWritten(inside[k + 8..]);
    w := Block(s[..i], inside[..k], rest);
  }

  /** In front of the first occurrence there is none. */
  lemma Cut(s: string, t: string, i: int)
    requires Index(s, t) == i != -1 && t != ""
    ensures 0 <= i && i + |t| <= |s| && s == s[..i] + (t + s[i + |t|..]) && !Has(s[..i], t)
  {
    assert s[i..i + |t|] == t;
    assert s == s[..i] + (s[i..i + |t|] + s[i + |t|..]);
    forall j
      ensures !OccursAt(s[..i], t, j)
    {
      FrontOccurs(s, i, t, j);
    }
  }

  lemma FrontOccurs(s: string, i: nat, t: string, j: int)
    requires i <= |s| && t != ""
    ensures OccursAt(s[..i], t, j) ==> OccursAt(s, t, j) && j < i
  {
    if OccursAt(s[..i], t, j) {
      assert s[..i][j..j + |t|] == s[j..j + |t|];
    }
  }

  // ----- Segments -----

  function Tagged(k: Kind, s: string): seq<(Kind, char)> {
    seq(|s|, i requires 0 <= i < |s| => (k, s[i]))
  }

  /** The bytes of a segment list, each with its kind. */
  function SegmentBytes(segments: seq<Segment>): seq<(Kind, char)> {
    if segments == [] then []
    else Tagged(segments[0].kind, segments[0].text) + SegmentBytes(segments[1..])
  }

  lemma {:induction false} SegmentBytesConcat(a: seq<Segment>, b: seq<Segment>)
    ensures SegmentBytes(a + b) == SegmentBytes(a) + SegmentBytes(b)
  {
    if a == [] {
      assert a + b == b;
    } else {
      SegmentBytesConcat(a[1..], b);
      assert (a + b)[1..] == a[1..] + b && (a + b)[0] == a[0];
      var head := Tagged(a[0].kind, a[0].text);
      assert head + (SegmentBytes(a[1..]) + SegmentBytes(b)) == (head + SegmentBytes(a[1..])) + SegmentBytes(b);
    }
  }

  lemma {:induction false} VisibleBytes(m: Kind, s: string)
    ensures Visible(Bytes(m, s)) == Tagged(m, s)
    decreases |s|
  {
    if s != "" {
      VisibleBytes(m, s[1..]);
      assert Bytes(m, s)[1..] == Bytes(m, s[1..]);
    }
  }

  lemma {:induction false} UnparseBytes(m: Kind, s: string)
    ensures Unparse(m, Bytes(m, s)) == s && ModeAfter(m, Bytes(m, s)) == m
    decreases |s|
  {
    if s != "" {
      UnparseBytes(m, s[1..]);
      assert Bytes(m, s)[1..] == Bytes(m, s[1..]);
    }
  }

  predicate NoEmpty(segments: seq<Segment>) {
    forall i :: 0 <= i < |segments| ==> |segments[i].text| != 0
  }

  // ----- Kind-merged segments -----

  function Prepend(x: Segment, merged: seq<Segment>): seq<Segment> {
    if merged != [] && merged[0].kind == x.kind
    then [Segment(x.kind, x.text + merged[0].text)] + merged[1..]
    else [x] + merged
  }

  /** Neighbouring segments of one kind joined into one. */
  function Merge(segments: seq<Segment>): seq<Segment> {
    if segments == [] then [] else Prepend(segments[0], Merge(segments[1..]))
  }

  /** The maximal runs of one kind in a byte sequence. */
  function Runs(bytes: seq<(Kind, char)>): seq<Segment> {
    if bytes == [] then [] else Prepend(Segment(bytes[0].0, [bytes[0].1]), Runs(bytes[1..]))
  }

  lemma {:induction false} RunsOfTagged(k: Kind, s: string, more: seq<(Kind, char)>)
    requires s != ""
    ensures Runs(Tagged(k, s) + more) == Prepend(Segment(k, s), Runs(more))
    decreases |s|
  {
    var bytes := Tagged(k, s) + more;
    assert bytes[1..] == Tagged(k, s[1..]) + more;
    if |s| == 1 {
      assert bytes[1..] == more;
      assert s == [s[0]];
    } else {
      RunsOfTagged(k, s[1..], more);
      var inner := Prepend(Segment(k, s[1..]), Runs(more));
      assert inner[0].kind == k;
      assert [s[0]] + inner[0].text
        == if Runs(more) != [] && Runs(more)[0].kind == k then s + Runs(more)[0].text else s;
    }
  }

  /** How a text was cut into segments disappears once neighbours of one kind are merged. */
  lemma {:induction false} MergeIsRuns(segments: seq<Segment>)
    requires NoEmpty(segments)
    ensures Merge(segments) == Runs(SegmentBytes(segments))
  {
    if segments != [] {
      MergeIsRuns(segments[1..]);
      RunsOfTagged(segments[0].kind, segments[0].text, SegmentBytes(segments[1..]));
    }
  }

  // ----- The splitter -----

  /** After `log`, the state (m, buffer) continues `input` as the one-shot parse does, whatever comes next. */
  ghost predicate Resumes(start: Kind, input: string, log: seq<Event>, m: Kind, buffer: string) {
    forall rest :: Parse(start, input + rest) == log + Parse(m, buffer + rest)
  }

  /** A step over the buffer `b` that logs `delta` and leaves (m', b') may be put after `log`. */
  lemma ResumesStep(start: Kind, input: string, log: seq<Event>, m: Kind, b: string, delta: seq<Event>, m': Kind,
                    b': string)
    requires Resumes(start, input, log, m, b)
    requires Resumes(m, b, delta, m', b')
    ensures Resumes(start, input, log + delta, m', b')
  {
    forall rest ensures Parse(start, input + rest) == (log + delta) + Parse(m', b' + rest) {
      assert Parse(m, b + rest) == delta + Parse(m', b' + rest);
      Assoc(log, delta, Parse(m', b' + rest));
    }
  }

  lemma ResumesFeed(start: Kind, input: string, log: seq<Event>, m: Kind, b: string, text: string)
    requires Resumes(start, input, log, m, b)
    ensures Resumes(start, input + text, log, m, b + text)
  {
    forall rest ensures Parse(start, input + text + rest) == log + Parse(m, b + text + rest) {
      assert Parse(start, input + (text + rest)) == log + Parse(m, b + (text + rest));
      Assoc(input, text, rest);
      Assoc(b, text, rest);
    }
  }

  /** Conservation follows: the log with its tags written back, then the buffer, is the input. */
  lemma ResumesConserves(start: Kind, input: string, log: seq<Event>, m: Kind, b: string)
    requires Resumes(start, input, log, m, b) && ModeAfter(start, log) == m
    ensures Unparse(start, log) + b == input
  {
    assert input + "" == input && b + "" == b;
    UnparseParse(start, input);
    UnparseParse(m, b);
    UnparseConcat(start, log, Parse(m, b));
  }

  class ReasoningParser {
    var inReasoning: bool
    var buffer: string
    ghost var start: Kind        // the mode in which `input` began
    ghost var input: string      // everything fed since then
    ghost var log: seq<Event>    // everything emitted since then

    ghost function Mode(): Kind
      reads this
    {
      if inReasoning then Reasoning else Text
    }

    /** What holds between two calls: the parse can be resumed, nothing is lost, and the carried
        buffer is too short to hold the tag that is searched for. */
    ghost predicate Valid()
      reads this
    {
      && Resumes(start, input, log, Mode(), buffer)
      && ModeAfter(start, log) == Mode()
      && Unparse(start, log) + buffer == input
      && |buffer| < |Tag(Mode())|
    }

    constructor ()
      ensures Valid() && start == Text && input == "" && log == [] && !inReasoning && buffer == ""
    {
      inReasoning, buffer := false, "";
      start, input, log := Text, "", [];
      new;
      assert Resumes(start, input, log, Mode(), buffer);
    }

    method Feed(text: string) returns (segments: seq<Segment>, ghost delta: seq<Event>)
      requires Valid()
      modifies this
      ensures Valid()
      ensures start == old(start) && input == old(input) + text && log == old(log) + delta
      ensures SegmentBytes(segments) == Visible(delta)
      ensures NoEmpty(segments)
    {
      ghost var b, m := buffer, Mode();
      buffer := buffer + text;
      ghost var fed := buffer;
      segments, delta := Consume(false);
      ResumesFeed(start, old(input), log, m, b, text);
      ResumesStep(start, old(input) + text, log, m, fed, delta, Mode(), buffer);
      UnparseConcat(start, log, delta);
      input, log := input + text, log + delta;
      ResumesConserves(start, input, log, Mode(), buffer);
    }

    /** The end of the input: what was emitted since the start is the one-shot parse of all of it. */
    method Flush() returns (segments: seq<Segment>, ghost delta: seq<Event>)
      requires Valid()
      modifies this
      ensures Valid()
      ensures old(log) + delta == Parse(old(start), old(input))
      ensures SegmentBytes(segments) == Visible(delta)
      ensures NoEmpty(segments)
      ensures buffer == "" && input == "" && log == [] && start == Mode() == ModeAfter(old(start), old(log) + delta)
    {
      ghost var b, m := buffer, Mode();
      segments, delta := Consume(true);
      assert old(input) + "" == old(input) && b + "" == b;
      assert Parse(start, old(input)) == log + Parse(m, b);
      UnparseConcat(start, log, delta);
      start, input, log := Mode(), "", [];
    }

    /** The loop that `feed` and `flush` share. */
    method Consume(flush: bool) returns (segments: seq<Segment>, ghost delta: seq<Event>)
      modifies this`inReasoning, this`buffer
      ensures Says(old(Mode()), delta, Mode(), segments)
      ensures !flush ==> Resumes(old(Mode()), old(buffer), delta, Mode(), buffer) && |buffer| < |Tag(Mode())|
      ensures flush ==> delta == Parse(old(Mode()), old(buffer)) && buffer == ""
    {
      segments, delta := [], [];
      ghost var m0, b0 := Mode(), buffer;
      while true
        invariant InStep(m0, b0, delta, if inReasoning then Reasoning else Text, buffer, segments)
        decreases |buffer|
      {
        var kind := if inReasoning then Reasoning else Text;
        var tag := if inReasoning then END_TAG else START_TAG;
        var index := Index(buffer, tag);
        if index == -1 {
          segments, buffer, delta := Drain(flush, kind, tag, buffer, segments, m0, b0, delta);
          break;
        }
        segments, buffer, delta := TakeTag(kind, tag, index, buffer, segments, m0, b0, delta);
        inReasoning := !inReasoning;
      }
    }
  }

  // ----- One round of the loop, on values -----

  /** The segments say what the log says, and the parse of `b0` resumes at (m, b). */
  ghost predicate InStep(m0: Kind, b0: string, delta: seq<Event>, m: Kind, b: string, segments: seq<Segment>) {
    Resumes(m0, b0, delta, m, b) && Says(m0, delta, m, segments)
  }

  ghost predicate Says(m0: Kind, delta: seq<Event>, m: Kind, segments: seq<Segment>) {
    ModeAfter(m0, delta) == m && SegmentBytes(segments) == Visible(delta) && NoEmpty(segments)
  }

  function Emitted(segments: seq<Segment>, kind: Kind, s: string): seq<Segment> {
    if |s| == 0 then segments else segments + [Segment(kind, s)]
  }

  function Carry(m: Kind, b: string): string {
    if |b| < |Tag(m)| then b else b[|b| - (|Tag(m)| - 1)..]
  }

  lemma TagResumes(m: Kind, b: string)
    requires Index(b, Tag(m)) != -1
    ensures var i := Index(b, Tag(m));
            0 <= i && i + |Tag(m)| <= |b| && Resumes(m, b, Bytes(m, b[..i]) + [Switch], Other(m), b[i + |Tag(m)|..])
  {
    forall rest
      ensures Parse(m, b + rest)
              == (Bytes(m, b[..Index(b, Tag(m))]) + [Switch]) + Parse(Other(m), b[Index(b, Tag(m)) + |Tag(m)|..] + rest)
    {
      ParseAtTag(m, b, rest);
    }
  }

  lemma TagStep(m0: Kind, b0: string, d: seq<Event>, m: Kind, b: string, segments: seq<Segment>)
    requires InStep(m0, b0, d, m, b, segments)
    requires Index(b, Tag(m)) != -1
    ensures var i := Index(b, Tag(m));
            var d' := d + (Bytes(m, b[..i]) + [Switch]);
            InStep(m0, b0, d', Other(m), b[i + |Tag(m)|..], Emitted(segments, m, b[..i]))
  {
    hide Resumes, Index, Bytes;
    var i := Index(b, Tag(m));
    var bytes := Bytes(m, b[..i]);
    TagResumes(m, b);
    ResumesStep(m0, b0, d, m, b, bytes + [Switch], Other(m), b[i + |Tag(m)|..]);
    EmitBytes(segments, d, m, b[..i], m0);
    assert d + (bytes + [Switch]) == (d + bytes) + [Switch];
    VisibleConcat(d + bytes, [Switch]);
    UnparseConcat(m0, d + bytes, [Switch]);
  }

  lemma CarryStep(m0: Kind, b0: string, d: seq<Event>, m: Kind, b: string, segments: seq<Segment>)
    requires InStep(m0, b0, d, m, b, segments)
    requires Index(b, Tag(m)) == -1
    ensures var carry := Carry(m, b);
            var emitted := b[..|b| - |carry|];
            var d' := d + Bytes(m, emitted);
            InStep(m0, b0, d', m, carry, Emitted(segments, m, emitted))
  {
    var carry := Carry(m, b);
    var emitted := b[..|b| - |carry|];
    forall rest ensures Parse(m, b + rest) == Bytes(m, emitted) + Parse(m, carry + rest) {
      if |b| >= |Tag(m)| {
        ParseCarry(m, b, rest);
      }
    }
    ResumesStep(m0, b0, d, m, b, Bytes(m, emitted), m, carry);
    EmitBytes(segments, d, m, emitted, m0);
  }

  lemma FlushStep(m0: Kind, b0: string, d: seq<Event>, m: Kind, b: string, segments: seq<Segment>)
    requires InStep(m0, b0, d, m, b, segments)
    requires Index(b, Tag(m)) == -1
    ensures var d' := d + Bytes(m, b[..|b|]);
            d' == Parse(m0, b0) && Says(m0, d', m, Emitted(segments, m, b))
  {
    ParseFlush(m, b);
    assert b0 + "" == b0 && b + "" == b && b[..|b|] == b;
    EmitBytes(segments, d, m, b, m0);
  }

  /** Emitting the bytes `s` as one segment (none when empty) keeps segments and log in step. */
  lemma EmitBytes(segments: seq<Segment>, delta: seq<Event>, kind: Kind, s: string, m0: Kind)
    requires SegmentBytes(segments) == Visible(delta)
    requires ModeAfter(m0, delta) == kind
    ensures SegmentBytes(Emitted(segments, kind, s)) == Visible(delta + Bytes(kind, s))
    ensures ModeAfter(m0, delta + Bytes(kind, s)) == kind
  {
    VisibleConcat(delta, Bytes(kind, s));
    VisibleBytes(kind, s);
    SegmentBytesConcat(segments, [Segment(kind, s)]);
    UnparseConcat(m0, delta, Bytes(kind, s));
    UnparseBytes(kind, s);
    assert SegmentBytes([Segment(kind, s)]) == Tagged(kind, s);
  }

  /** The round that found a tag: what precedes it goes out, the tag is dropped. */
  method TakeTag(kind: Kind, tag: string, index: nat, buffer: string, segments: seq<Segment>,
                 ghost m0: Kind, ghost b0: string, ghost delta: seq<Event>)
    returns (out: seq<Segment>, rest: string, ghost delta': seq<Event>)
    requires tag == Tag(kind) && Index(buffer, tag) == index && InStep(m0, b0, delta, kind, buffer, segments)
    ensures InStep(m0, b0, delta', Other(kind), rest, out) && |rest| < |buffer|
  {
    TagStep(m0, b0, delta, kind, buffer, segments);
    out, rest := segments, buffer[index + |tag|..];
    if index > 0 {
      out := out + [Segment(kind, buffer[..index])];
    }
    delta' := delta + (Bytes(kind, buffer[..index]) + [Switch]);
  }

  /** The end of a round without a tag: everything goes out on a flush, everything but the carry otherwise. */
  method Drain(flush: bool, kind: Kind, tag: string, buffer: string, segments: seq<Segment>,
               ghost m0: Kind, ghost b0: string, ghost delta: seq<Event>)
    returns (out: seq<Segment>, carry: string, ghost delta': seq<Event>)
    requires tag == Tag(kind) && Index(buffer, tag) == -1 && InStep(m0, b0, delta, kind, buffer, segments)
    ensures Says(m0, delta', kind, out)
    ensures flush ==> delta' == Parse(m0, b0) && carry == ""
    ensures !flush ==> Resumes(m0, b0, delta', kind, carry) && |carry| < |tag|
  {
    if flush {
      FlushStep(m0, b0, delta, kind, buffer, segments);
      out, carry := segments, "";
      if buffer != "" {
        out := out + [Segment(kind, buffer)];
      }
    } else {
      CarryStep(m0, b0, delta, kind, buffer, segments);
      out, carry := SplitBuffer(buffer, tag, kind, segments);
    }
    delta' := delta + Bytes(kind, buffer[..|buffer| - |carry|]);
  }

  /** splitBuffer: emits what can no longer be part of a tag and carries the rest. */
  method SplitBuffer(buffer: string, tag: string, kind: Kind, segments: seq<Segment>)
    returns (out: seq<Segment>, carry: string)
    requires |tag| >= 2
    ensures carry == if |buffer| < |tag| then buffer else buffer[|buffer| - (|tag| - 1)..]
    ensures out == Emitted(segments, kind, buffer[..|buffer| - |carry|])
  {
    var minCarry := |tag| - 1;
    if minCarry < 1 || |buffer| <= minCarry {
      return segments, buffer;
    }
    var safe := |buffer| - minCarry;
    return segments + [Segment(kind, buffer[..safe])], buffer[safe..];
  }

  /** Chunk invariance: however a text is cut into chunks, feeding them and flushing gives the text and
      reasoning bytes of the one-shot parse, and the same segments once neighbours of one kind are merged. */
  method SplitChunks(chunks: seq<string>) returns (segments: seq<Segment>)
    ensures SegmentBytes(segments) == Visible(Parse(Text, Concat(chunks)))
    ensures Merge(segments) == Runs(Visible(Parse(Text, Concat(chunks))))
    ensures forall w :: Proper(w) && Source(w) == Concat(chunks) ==> SegmentBytes(segments) == Meant(w)
  {
    hide Parse, Visible, Runs, Merge, Resumes, Unparse, ModeAfter, Proper, Source, Meant;
    var parser := new ReasoningParser();
    segments := [];
    NothingSaid();
    ghost var done: seq<string> := [];
    for i := 0 to |chunks|
      invariant fresh(parser) && parser.Valid() && parser.start == Text && parser.input == Concat(done)
      invariant done == chunks[..i]
      invariant SegmentBytes(segments) == Visible(parser.log) && NoEmpty(segments)
    {
      ghost var log := parser.log;
      var more, delta := parser.Feed(chunks[i]);
      SaysMore(segments, more, log, delta);
      segments := segments + more;
      ConcatSnoc(done, chunks[i]);
      done := done + [chunks[i]];
    }
    assert done == chunks;
    ghost var log := parser.log;
    var more, delta := parser.Flush();
    SaysMore(segments, more, log, delta);
    segments := segments + more;
    MergeIsRuns(segments);
    AllReadings(Concat(chunks));
  }

  lemma NothingSaid()
    ensures SegmentBytes([]) == Visible([]) && Concat([]) == ""
  {
  }

  lemma SaysMore(segments: seq<Segment>, more: seq<Segment>, log: seq<Event>, delta: seq<Event>)
    requires SegmentBytes(segments) == Visible(log) && SegmentBytes(more) == Visible(delta)
    requires NoEmpty(segments) && NoEmpty(more)
    ensures SegmentBytes(segments + more) == Visible(log + delta) && NoEmpty(segments + more)
  {
    SegmentBytesConcat(segments, more);
    VisibleConcat(log, delta);
  }
}

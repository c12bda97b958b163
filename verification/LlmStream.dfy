/** agent/session/llm_stream.go: the event loop of `Stream`, which feeds the reasoning splitter and
    assembles tool calls from fragments that arrive interleaved. */
module LlmStream {
  import opened GoStrings
  import opened ReasoningStream

  datatype StreamEvent =
    | TextDelta(text: string)
    | ReasoningDelta(text: string)
    | ToolDelta(index: int, part: Fragment)
    | Finish(reason: string, usage: Option<int>)
    | Error(err: Option<string>)  // the event's error, which may be nil
    | Aborted                     // the select took the Abort branch at this point
    | Unknown                     // any other event type

  datatype Fragment = Fragment(id: string, name: string, arguments: string)

  datatype ToolCall = ToolCall(id: string, name: string, arguments: string)

  datatype StreamOutput = StreamOutput(text: string, toolCalls: seq<ToolCall>, finish: string, usage: Option<int>)

  datatype StreamResult = Ok(output: StreamOutput) | Err(err: string)

  const ABORT_ERROR := "context canceled"

  // ----- The reference: what the events mean, read one concern at a time -----

  /** Everything the model said as text, however it was cut into chunks. */
  function TextInput(events: seq<StreamEvent>): string {
    if events == [] then ""
    else var last := events[|events| - 1];
         TextInput(events[..|events| - 1]) + if last.TextDelta? then last.text else ""
  }

  /** The fragments of tool call `index`, in order of arrival. */
  function Fragments(events: seq<StreamEvent>, index: int): seq<Fragment> {
    if events == [] then []
    else var last := events[|events| - 1];
         Fragments(events[..|events| - 1], index) + if last.ToolDelta? && last.index == index then [last.part] else []
  }

  function LastNonEmpty(values: seq<string>): string {
    if values == [] then ""
    else var last := values[|values| - 1];
         if last != "" then last else LastNonEmpty(values[..|values| - 1])
  }

  /** The call that a fragment list spells: last non-empty id and name, arguments in order. */
  function Assemble(parts: seq<Fragment>): ToolCall {
    ToolCall(
      LastNonEmpty(seq(|parts|, i requires 0 <= i < |parts| => parts[i].id)),
      LastNonEmpty(seq(|parts|, i requires 0 <= i < |parts| => parts[i].name)),
      Concat(seq(|parts|, i requires 0 <= i < |parts| => parts[i].arguments)))
  }

  function FinishReason(events: seq<StreamEvent>): string {
    if events == [] then ""
    else var last := events[|events| - 1];
         if last.Finish? then last.reason else FinishReason(events[..|events| - 1])
  }

  function LastUsage(events: seq<StreamEvent>): Option<int> {
    if events == [] then None
    else var last := events[|events| - 1];
         if last.Finish? && last.usage.Some? then last.usage else LastUsage(events[..|events| - 1])
  }

  function ToolEvents(events: seq<StreamEvent>): seq<StreamEvent> {
    if events == [] then []
    else var last := events[|events| - 1];
         ToolEvents(events[..|events| - 1]) + if last.ToolDelta? then [last] else []
  }

  function OfKind(k: Kind, bytes: seq<(Kind, char)>): string {
    if bytes == [] then ""
    else OfKind(k, bytes[..|bytes| - 1]) + if bytes[|bytes| - 1].0 == k then [bytes[|bytes| - 1].1] else ""
  }

  predicate Ascending(order: seq<int>) {
    forall i, j :: 0 <= i < j < |order| ==> order[i] < order[j]
  }

  /** `order` lists exactly the indexes that received a fragment, in ascending order. */
  ghost predicate IndexOrder(events: seq<StreamEvent>, order: seq<int>) {
    && Ascending(order)
    && forall k :: k in order <==> Fragments(events, k) != []
  }

  function AssembleAll(events: seq<StreamEvent>, order: seq<int>): (calls: seq<ToolCall>)
    ensures |calls| == |order|
  {
    seq(|order|, i requires 0 <= i < |order| => Assemble(Fragments(events, order[i])))
  }

  // ----- The same, said on single fragments and events -----

  lemma {:induction false} LastNonEmptyIs(values: seq<string>, k: int)
    requires -1 <= k < |values| && (k >= 0 ==> values[k] != "") && forall i :: k < i < |values| ==> values[i] == ""
    ensures LastNonEmpty(values) == if k >= 0 then values[k] else ""
    decreases |values|
  {
    if k < |values| - 1 {
      LastNonEmptyIs(values[..|values| - 1], k);
    }
  }

  /** A call has the last ID and the last name that its fragments brought; `k` and `n` are where these came, if any. */
  lemma CallIs(parts: seq<Fragment>, k: int, n: int)
    requires -1 <= k < |parts| && (k >= 0 ==> parts[k].id != "") && forall i :: k < i < |parts| ==> parts[i].id == ""
    requires -1 <= n < |parts| && (n >= 0 ==> parts[n].name != "")
    requires forall i :: n < i < |parts| ==> parts[i].name == ""
    ensures Assemble(parts).id == if k >= 0 then parts[k].id else ""
    ensures Assemble(parts).name == if n >= 0 then parts[n].name else ""
  {
    LastNonEmptyIs(seq(|parts|, i requires 0 <= i < |parts| => parts[i].id), k);
    LastNonEmptyIs(seq(|parts|, i requires 0 <= i < |parts| => parts[i].name), n);
  }

  /** ... and all their arguments, in order. */
  lemma ArgumentsAre(parts: seq<Fragment>)
    ensures parts == [] ==> Assemble(parts).arguments == ""
    ensures parts != [] ==>
              Assemble(parts).arguments == Assemble(parts[..|parts| - 1]).arguments + parts[|parts| - 1].arguments
  {
    hide LastNonEmpty;
    if parts != [] {
      var n := |parts| - 1;
      var front := parts[..n];
      assert seq(|parts|, i requires 0 <= i < |parts| => parts[i].arguments)[..n]
        == seq(n, i requires 0 <= i < n => front[i].arguments);
    }
  }

  /** The finish reason is that of the last finish event, which stands at `k`. */
  lemma {:induction false} FinishIs(events: seq<StreamEvent>, k: int)
    requires -1 <= k < |events| && (k >= 0 ==> events[k].Finish?)
    requires forall i :: k < i < |events| ==> !events[i].Finish?
    ensures FinishReason(events) == if k >= 0 then events[k].reason else ""
    decreases |events|
  {
    if k < |events| - 1 {
      FinishIs(events[..|events| - 1], k);
    }
  }

  /** The usage is that of the last finish event that brings any. */
  lemma {:induction false} UsageIs(events: seq<StreamEvent>, k: int)
    requires -1 <= k < |events| && (k >= 0 ==> events[k].Finish? && events[k].usage.Some?)
    requires forall i :: k < i < |events| ==> !(events[i].Finish? && events[i].usage.Some?)
    ensures LastUsage(events) == if k >= 0 then events[k].usage else None
    decreases |events|
  {
    if k < |events| - 1 {
      UsageIs(events[..|events| - 1], k);
    }
  }

  predicate Stops(e: StreamEvent) {
    e.Error? || e.Aborted?
  }

  predicate FirstStop(events: seq<StreamEvent>, k: nat) {
    k < |events| && Stops(events[k]) && NoStop(events[..k])
  }

  predicate NoStop(events: seq<StreamEvent>) {
    forall j :: 0 <= j < |events| ==> !Stops(events[j])
  }

  function StopError(e: StreamEvent): Option<string> {
    if e.Error? then e.err else Some(ABORT_ERROR)
  }

  const NO_OUTPUT := StreamOutput("", [], "", None)

  /** What is returned for a stream that `e` stopped; without an error it reads as a complete answer. */
  function Stopped(e: StreamEvent): StreamResult {
    if StopError(e).Some? then Err(StopError(e).value) else Ok(NO_OUTPUT)
  }

  /** The result is an error exactly when the first event that stops the stream brings one. */
  lemma ErrIff(events: seq<StreamEvent>, result: StreamResult)
    requires NoStop(events) ==> result.Ok?
    requires !NoStop(events) ==> exists k: nat :: FirstStop(events, k) && result == Stopped(events[k])
    ensures result.Err? <==>
              exists k: nat :: && k < |events| && (events[k].Aborted? || (events[k].Error? && events[k].err.Some?))
                               && forall i :: 0 <= i < k ==> !events[i].Error? && !events[i].Aborted?
  {
    if j: nat :| && j < |events| && (events[j].Aborted? || (events[j].Error? && events[j].err.Some?))
                 && forall i :: 0 <= i < j ==> !events[i].Error? && !events[i].Aborted?
    {
      assert FirstStop(events, j) && Stops(events[j]);
      var k: nat :| FirstStop(events, k) && result == Stopped(events[k]);
      OneFirstStop(events, j, k);
    }
    if result.Err? {
      var k: nat :| FirstStop(events, k) && result == Stopped(events[k]);
      NoStopBefore(events, k);
    }
  }

  lemma OneFirstStop(events: seq<StreamEvent>, j: nat, k: nat)
    requires FirstStop(events, j) && FirstStop(events, k)
    ensures j == k
  {
    NoStopBefore(events, j);
    NoStopBefore(events, k);
  }

  lemma NoStopBefore(events: seq<StreamEvent>, k: nat)
    requires k <= |events| && NoStop(events[..k])
    ensures forall j :: 0 <= j < k ==> !Stops(events[j])
  {
    forall j | 0 <= j < k
      ensures !Stops(events[j])
    {
      assert events[..k][j] == events[j];
    }
  }

  // ----- Interleaving -----

  /** There is only one ascending list of a set of indexes. */
  lemma {:induction false} AscendingUnique(a: seq<int>, b: seq<int>)
    requires Ascending(a) && Ascending(b)
    requires forall k :: k in a <==> k in b
    ensures a == b
    decreases |a|
  {
    assert a == [] <==> b == [] by {
      if a != [] { assert a[0] in b; }
      if b != [] { assert b[0] in a; }
    }
    if a != [] {
      assert a[0] in b && b[0] in a;
      var a', b' := a[1..], b[1..];
      forall k ensures k in a' <==> k in b' {
        assert k in a' <==> (k in a && k != a[0]);
        assert k in b' <==> (k in b && k != b[0]);
      }
      AscendingUnique(a', b');
      assert a == [a[0]] + a' && b == [b[0]] + b';
    }
  }

  /** The calls depend only on what each index received: two streams that interleave the same
      fragments differently build the same calls in the same order. */
  lemma InterleavingInvariance(events: seq<StreamEvent>, events': seq<StreamEvent>, order: seq<int>, order': seq<int>)
    requires forall k :: Fragments(events, k) == Fragments(events', k)
    requires IndexOrder(events, order) && IndexOrder(events', order')
    ensures order == order' && AssembleAll(events, order) == AssembleAll(events', order')
  {
    AscendingUnique(order, order');
  }

  /** Neighbouring events commute unless they carry fragments of one index or are both text. */
  lemma {:induction false} SwapNeighbours(before: seq<StreamEvent>, a: StreamEvent, b: StreamEvent,
                                          after: seq<StreamEvent>)
    requires !(a.ToolDelta? && b.ToolDelta? && a.index == b.index)
    requires !(a.TextDelta? && b.TextDelta?)
    ensures TextInput(before + [a, b] + after) == TextInput(before + [b, a] + after)
    ensures forall k :: Fragments(before + [a, b] + after, k) == Fragments(before + [b, a] + after, k)
    decreases |after|
  {
    var xs, ys := before + [a, b] + after, before + [b, a] + after;
    if after == [] {
      assert xs[..|xs| - 1] == before + [a] && (before + [a])[..|before|] == before;
      assert ys[..|ys| - 1] == before + [b] && (before + [b])[..|before|] == before;
    } else {
      var init := after[..|after| - 1];
      assert xs[..|xs| - 1] == before + [a, b] + init;
      assert ys[..|ys| - 1] == before + [b, a] + init;
      SwapNeighbours(before, a, b, init);
    }
  }

  // ----- emitSegments -----

  lemma {:induction false} OfKindConcat(k: Kind, a: seq<(Kind, char)>, b: seq<(Kind, char)>)
    ensures OfKind(k, a + b) == OfKind(k, a) + OfKind(k, b)
    decreases |b|
  {
    if b == [] {
      assert a + b == a;
    } else {
      OfKindConcat(k, a, b[..|b| - 1]);
      assert (a + b)[..|a + b| - 1] == a + b[..|b| - 1];
    }
  }

  lemma {:induction false} OfKindTagged(k: Kind, kind: Kind, s: string)
    ensures OfKind(k, Tagged(kind, s)) == if k == kind then s else ""
    decreases |s|
  {
    if s != "" {
      OfKindTagged(k, kind, s[..|s| - 1]);
      assert Tagged(kind, s)[..|s| - 1] == Tagged(kind, s[..|s| - 1]);
    }
  }

  function EventOf(s: Segment): StreamEvent {
    if s.kind.Text? then TextDelta(s.text) else ReasoningDelta(s.text)
  }

  /** The reasoning that the provider delivers as such. */
  function Delivered(events: seq<StreamEvent>): seq<(Kind, char)> {
    if events == [] then []
    else var last := events[|events| - 1];
         Delivered(events[..|events| - 1]) + if last.ReasoningDelta? then Tagged(Reasoning, last.text) else []
  }

  /** `c` has all of `a` and all of `b`, each in its order. */
  ghost predicate Shuffle<T(!new)>(a: seq<T>, b: seq<T>, c: seq<T>)
    decreases |c|
  {
    if c == [] then a == [] && b == []
    else
      var last, rest := c[|c| - 1], c[..|c| - 1];
      || (a != [] && a[|a| - 1] == last && Shuffle(a[..|a| - 1], b, rest))
      || (b != [] && b[|b| - 1] == last && Shuffle(a, b[..|b| - 1], rest))
  }

  lemma {:induction false} ShuffleMore<T(!new)>(a: seq<T>, b: seq<T>, c: seq<T>, x: seq<T>)
    requires Shuffle(a, b, c)
    ensures Shuffle(a + x, b, c + x) && Shuffle(a, b + x, c + x)
    decreases |x|
  {
    if x == [] {
      assert a + x == a && b + x == b && c + x == c;
    } else {
      var n := |x| - 1;
      ShuffleMore(a, b, c, x[..n]);
      assert (a + x)[..|a + x| - 1] == a + x[..n] && (b + x)[..|b + x| - 1] == b + x[..n]
        && (c + x)[..|c + x| - 1] == c + x[..n];
    }
  }

  lemma {:induction false} ShuffleOfOne<T(!new)>(a: seq<T>, c: seq<T>)
    requires Shuffle(a, [], c)
    ensures a == c
    decreases |c|
  {
    if c != [] {
      ShuffleOfOne(a[..|a| - 1], c[..|c| - 1]);
      assert a == a[..|a| - 1] + [a[|a| - 1]] && c == c[..|c| - 1] + [c[|c| - 1]];
    }
  }

  lemma {:induction false} NothingDelivered(events: seq<StreamEvent>)
    requires forall e :: e in events ==> !e.ReasoningDelta?
    ensures Delivered(events) == []
    decreases |events|
  {
    if events != [] {
      NothingDelivered(events[..|events| - 1]);
      assert events[|events| - 1] in events;
    }
  }

  /** The bytes that text and reasoning events carry, with their kinds. */
  function EventBytes(events: seq<StreamEvent>): seq<(Kind, char)> {
    if events == [] then []
    else var last := events[|events| - 1];
         EventBytes(events[..|events| - 1]) +
         (match last case TextDelta(t) => Tagged(Text, t) case ReasoningDelta(t) => Tagged(Reasoning, t) case _ => [])
  }

  method EmitSegments(segments: seq<Segment>, textBuilder: string, hasCallback: bool, emitted: seq<StreamEvent>)
    returns (text: string, events: seq<StreamEvent>)
    ensures text == textBuilder + OfKind(Text, SegmentBytes(segments))
    ensures EventBytes(events) == EventBytes(emitted) + if hasCallback then SegmentBytes(segments) else []
    ensures ToolEvents(events) == ToolEvents(emitted)
    ensures !hasCallback ==> events == emitted
  {
    hide Sent;
    text, events := textBuilder, emitted;
    ghost var done: seq<Segment> := [];
    NothingSent(textBuilder, hasCallback, emitted);
    for i := 0 to |segments|
      invariant done == segments[..i] && Sent(done, textBuilder, hasCallback, emitted, text, events)
    {
      var segment := segments[i];
      SentNext(done, segment, textBuilder, hasCallback, emitted, text, events);
      done := done + [segment];
      if segment.text == "" {
        assert text + "" == text;
        continue;
      }
      if segment.kind == Text {
        text := text + segment.text;
      }
      if hasCallback {
        events := events + [EventOf(segment)];
      }
    }
    assert done == segments;
    AllSent(segments, textBuilder, hasCallback, emitted, text, events);
  }

  /** The segments so far are in the text builder and, if there is one, at the callback. */
  ghost predicate Sent(done: seq<Segment>, textBuilder: string, hasCallback: bool, emitted: seq<StreamEvent>,
                       text: string, events: seq<StreamEvent>) {
    && text == textBuilder + OfKind(Text, SegmentBytes(done))
    && EventBytes(events) == EventBytes(emitted) + (if hasCallback then SegmentBytes(done) else [])
    && ToolEvents(events) == ToolEvents(emitted)
    && (!hasCallback ==> events == emitted)
  }

  lemma NothingSent(textBuilder: string, hasCallback: bool, emitted: seq<StreamEvent>)
    ensures Sent([], textBuilder, hasCallback, emitted, textBuilder, emitted)
  {
  }

  lemma AllSent(done: seq<Segment>, textBuilder: string, hasCallback: bool, emitted: seq<StreamEvent>, text: string,
                events: seq<StreamEvent>)
    requires Sent(done, textBuilder, hasCallback, emitted, text, events)
    ensures text == textBuilder + OfKind(Text, SegmentBytes(done)) && ToolEvents(events) == ToolEvents(emitted)
    ensures EventBytes(events) == EventBytes(emitted) + if hasCallback then SegmentBytes(done) else []
    ensures !hasCallback ==> events == emitted
  {
  }

  lemma SentNext(done: seq<Segment>, segment: Segment, textBuilder: string, hasCallback: bool,
                 emitted: seq<StreamEvent>, text: string, events: seq<StreamEvent>)
    requires Sent(done, textBuilder, hasCallback, emitted, text, events)
    ensures Sent(done + [segment], textBuilder, hasCallback, emitted,
                 if segment.kind == Text then text + segment.text else text,
                 if hasCallback && segment.text != "" then events + [EventOf(segment)] else events)
  {
    hide OfKind, SegmentBytes, EventBytes, ToolEvents;
    NextSegment(done, segment, textBuilder, EventBytes(emitted), events);
  }

  lemma NextSegment(done: seq<Segment>, segment: Segment, text: string, bytes: seq<(Kind, char)>,
                    events: seq<StreamEvent>)
    ensures text + OfKind(Text, SegmentBytes(done + [segment])) ==
            text + OfKind(Text, SegmentBytes(done)) + if segment.kind.Text? then segment.text else ""
    ensures bytes + SegmentBytes(done + [segment]) == bytes + SegmentBytes(done) + Tagged(segment.kind, segment.text)
    ensures EventBytes(events + [EventOf(segment)]) == EventBytes(events) + Tagged(segment.kind, segment.text)
    ensures ToolEvents(events + [EventOf(segment)]) == ToolEvents(events)
  {
    var more := Tagged(segment.kind, segment.text);
    SegmentBytesSnoc(done, segment);
    Assoc(bytes, SegmentBytes(done), more);
    OfKindSnoc(SegmentBytes(done), segment, text);
    assert (events + [EventOf(segment)])[..|events|] == events;
  }

  lemma SegmentBytesSnoc(done: seq<Segment>, segment: Segment)
    ensures SegmentBytes(done + [segment]) == SegmentBytes(done) + Tagged(segment.kind, segment.text)
  {
    SegmentBytesConcat(done, [segment]);
    assert SegmentBytes([segment]) == Tagged(segment.kind, segment.text);
  }

  lemma OfKindSnoc(bytes: seq<(Kind, char)>, segment: Segment, text: string)
    ensures text + OfKind(Text, bytes + Tagged(segment.kind, segment.text)) ==
            text + OfKind(Text, bytes) + if segment.kind.Text? then segment.text else ""
  {
    OfKindConcat(Text, bytes, Tagged(segment.kind, segment.text));
    OfKindTagged(Text, segment.kind, segment.text);
    Assoc(text, OfKind(Text, bytes), if segment.kind.Text? then segment.text else "");
  }

  // ----- buildToolCalls -----

  function Insert(x: int, sorted: seq<int>): (r: seq<int>)
    requires Ascending(sorted) && x !in sorted
    ensures Ascending(r) && forall k :: k in r <==> k == x || k in sorted
  {
    if sorted == [] || x < sorted[0] then [x] + sorted
    else
      var rest := Insert(x, sorted[1..]);
      assert forall k :: k in sorted <==> k == sorted[0] || k in sorted[1..];
      assert forall i :: 0 <= i < |rest| ==> rest[i] in rest;
      [sorted[0]] + rest
  }

  /** sort.Ints, on the distinct keys of a map. */
  function SortInts(xs: seq<int>): (r: seq<int>)
    requires forall i, j :: 0 <= i < j < |xs| ==> xs[i] != xs[j]
    ensures Ascending(r) && forall k :: k in r <==> k in xs
  {
    if xs == [] then [] else Insert(xs[0], SortInts(xs[1..]))
  }

  /** `order` lists the keys of the map in ascending order. */
  ghost predicate KeyOrder(builders: map<int, ToolCall>, order: seq<int>) {
    Ascending(order) && forall k :: k in order <==> k in builders
  }

  ghost predicate CallsInOrder(builders: map<int, ToolCall>, calls: seq<ToolCall>, order: seq<int>) {
    |calls| == |order| && forall i :: 0 <= i < |order| ==> order[i] in builders && calls[i] == builders[order[i]]
  }

  /** The range over a Go map visits the keys in an arbitrary order; the calls do not depend on it. */
  method BuildToolCalls(builders: map<int, ToolCall>) returns (calls: seq<ToolCall>, ghost order: seq<int>)
    ensures KeyOrder(builders, order) && CallsInOrder(builders, calls, order)
    ensures forall o :: KeyOrder(builders, o) ==> CallsInOrder(builders, calls, o)
  {
    calls, order := [], [];
    var indices: seq<int> := [];
    var rest: set<int> := builders.Keys;
    while rest != {}
      invariant forall i, j :: 0 <= i < j < |indices| ==> indices[i] != indices[j]
      invariant rest <= builders.Keys
      invariant forall k :: k in indices <==> k in builders && k !in rest
      decreases rest
    {
      var index := AnyOf(rest);
      indices := indices + [index];
      rest := rest - {index};
    }
    indices := SortInts(indices);
    order := indices;
    assert forall i :: 0 <= i < |order| ==> order[i] in order;
    for i := 0 to |indices|
      invariant |calls| == i
      invariant forall j :: 0 <= j < i ==> calls[j] == builders[order[j]]
    {
      calls := calls + [builders[indices[i]]];
    }
    forall o | KeyOrder(builders, o)
      ensures o == order
    {
      AscendingUnique(o, order);
    }
  }

  // ----- The event loop -----

  /** `builders` holds what the fragments seen so far assemble to. */
  ghost predicate Assembled(builders: map<int, ToolCall>, events: seq<StreamEvent>) {
    forall k :: (k in builders <==> Fragments(events, k) != [])
      && (k in builders ==> builders[k] == Assemble(Fragments(events, k)))
  }

  function AddPart(b: ToolCall, part: Fragment): ToolCall {
    ToolCall(if part.id != "" then part.id else b.id,
             if part.name != "" then part.name else b.name,
             b.arguments + part.arguments)
  }

  lemma AssembleSnoc(parts: seq<Fragment>, part: Fragment)
    ensures Assemble(parts + [part]) == AddPart(Assemble(parts), part)
  {
    var n, all := |parts|, parts + [part];
    assert seq(n + 1, i requires 0 <= i < n + 1 => all[i].id)[..n] == seq(n, i requires 0 <= i < n => parts[i].id);
    assert seq(n + 1, i requires 0 <= i < n + 1 => all[i].name)[..n] == seq(n, i requires 0 <= i < n => parts[i].name);
    assert seq(n + 1, i requires 0 <= i < n + 1 => all[i].arguments)[..n]
      == seq(n, i requires 0 <= i < n => parts[i].arguments);
  }

  /** One more fragment for one index leaves the other indexes alone. */
  lemma AssembledStep(builders: map<int, ToolCall>, events: seq<StreamEvent>, index: int, part: Fragment)
    requires Assembled(builders, events)
    ensures var b := if index in builders then builders[index] else ToolCall("", "", "");
            Assembled(builders[index := AddPart(b, part)], events + [ToolDelta(index, part)])
  {
    var all := events + [ToolDelta(index, part)];
    assert all[..|all| - 1] == events;
    assert Fragments(all, index) == Fragments(events, index) + [part];
    AssembleSnoc(Fragments(events, index), part);
    assert Assemble([]) == ToolCall("", "", "");
    forall k | k != index ensures Fragments(all, k) == Fragments(events, k) {
    }
  }

  lemma AssembledSkip(builders: map<int, ToolCall>, events: seq<StreamEvent>, e: StreamEvent)
    requires Assembled(builders, events) && !e.ToolDelta?
    ensures Assembled(builders, events + [e])
  {
    forall k ensures Fragments(events + [e], k) == Fragments(events, k) {
      assert (events + [e])[..|events|] == events;
    }
  }

  /** What the loop knows after the events `seen`: the output so far, and what the callback was told. */
  ghost predicate Tracks(seen: seq<StreamEvent>, log: seq<Event>, output: StreamOutput,
                         emitted: Option<seq<StreamEvent>>) {
    && output.text == OfKind(Text, Visible(log))
    && output.finish == FinishReason(seen) && output.usage == LastUsage(seen)
    && (emitted.Some? ==>
        && ToolEvents(emitted.value) == ToolEvents(seen)
        && OfKind(Text, EventBytes(emitted.value)) == output.text
        && Shuffle(Visible(log), Delivered(seen), EventBytes(emitted.value)))
  }

  function Told(hasCallback: bool, emitted: seq<StreamEvent>): Option<seq<StreamEvent>> {
    if hasCallback then Some(emitted) else None
  }

  lemma SeenMore(seen: seq<StreamEvent>, e: StreamEvent)
    ensures FinishReason(seen + [e]) == if e.Finish? then e.reason else FinishReason(seen)
    ensures LastUsage(seen + [e]) == if e.Finish? && e.usage.Some? then e.usage else LastUsage(seen)
    ensures ToolEvents(seen + [e]) == ToolEvents(seen) + if e.ToolDelta? then [e] else []
    ensures Delivered(seen + [e]) == Delivered(seen) + if e.ReasoningDelta? then Tagged(Reasoning, e.text) else []
  {
    assert (seen + [e])[..|seen|] == seen;
  }

  lemma TracksText(seen: seq<StreamEvent>, log: seq<Event>, output: StreamOutput, emitted: Option<seq<StreamEvent>>,
                   tail: seq<StreamEvent>, delta: seq<Event>, told: seq<StreamEvent>)
    requires Tracks(seen, log, output, emitted)
    requires tail == [] || (|tail| == 1 && tail[0].TextDelta?)
    requires emitted.Some? ==>
               EventBytes(told) == EventBytes(emitted.value) + Visible(delta)
                 && ToolEvents(told) == ToolEvents(emitted.value)
    ensures Tracks(seen + tail, log + delta, output.(text := output.text + OfKind(Text, Visible(delta))),
                   if emitted.Some? then Some(told) else None)
  {
    hide Shuffle, Delivered, ToolEvents, EventBytes, OfKind, Visible, FinishReason, LastUsage;
    VisibleConcat(log, delta);
    OfKindConcat(Text, Visible(log), Visible(delta));
    if emitted.Some? {
      OfKindConcat(Text, EventBytes(emitted.value), Visible(delta));
      ShuffleMore(Visible(log), Delivered(seen), EventBytes(emitted.value), Visible(delta));
    }
    if tail == [] {
      assert seen + tail == seen;
    } else {
      SeenMore(seen, tail[0]);
      assert tail == [tail[0]] && ToolEvents(seen) + [] == ToolEvents(seen) && Delivered(seen) + [] == Delivered(seen);
    }
  }

  lemma TracksOther(seen: seq<StreamEvent>, log: seq<Event>, output: StreamOutput, hasCallback: bool,
                    emitted: seq<StreamEvent>, e: StreamEvent)
    requires Tracks(seen, log, output, Told(hasCallback, emitted))
    requires !e.TextDelta? && !Stops(e)
    ensures var output' :=
              if e.Finish? then output.(finish := e.reason, usage := if e.usage.Some? then e.usage else output.usage)
                else output;
            var told := if hasCallback && (e.ReasoningDelta? || e.ToolDelta?) then emitted + [e] else emitted;
            Tracks(seen + [e], log, output', Told(hasCallback, told))
  {
    hide Shuffle, Delivered, ToolEvents, EventBytes, OfKind, Visible, FinishReason, LastUsage;
    SeenMore(seen, e);
    assert ToolEvents(seen) + [] == ToolEvents(seen) && Delivered(seen) + [] == Delivered(seen);
    if hasCallback && (e.ReasoningDelta? || e.ToolDelta?) {
      EmittedStep(emitted, e);
      assert ToolEvents(emitted) + [] == ToolEvents(emitted);
      if e.ReasoningDelta? {
        ShuffleMore(Visible(log), Delivered(seen), EventBytes(emitted), Tagged(Reasoning, e.text));
      }
    }
  }

  lemma EmittedStep(emitted: seq<StreamEvent>, e: StreamEvent)
    requires e.ReasoningDelta? || e.ToolDelta?
    ensures e.ReasoningDelta? ==> EventBytes(emitted + [e]) == EventBytes(emitted) + Tagged(Reasoning, e.text)
    ensures OfKind(Text, EventBytes(emitted + [e])) == OfKind(Text, EventBytes(emitted))
    ensures ToolEvents(emitted + [e]) == ToolEvents(emitted) + if e.ToolDelta? then [e] else []
    ensures e.ToolDelta? ==> EventBytes(emitted + [e]) == EventBytes(emitted)
  {
    assert (emitted + [e])[..|emitted|] == emitted;
    var bytes := EventBytes(emitted);
    assert bytes + [] == bytes;
    if e.ReasoningDelta? {
      assert EventBytes(emitted + [e]) == bytes + Tagged(Reasoning, e.text);
      OfKindConcat(Text, bytes, Tagged(Reasoning, e.text));
      OfKindTagged(Text, Reasoning, e.text);
      assert OfKind(Text, bytes) + "" == OfKind(Text, bytes);
    }
  }

  /** A tool delta: the builder of its index takes over what is not empty. */
  method AddFragment(builders: map<int, ToolCall>, index: int, part: Fragment, ghost seen: seq<StreamEvent>)
    returns (out: map<int, ToolCall>)
    requires Assembled(builders, seen)
    ensures Assembled(out, seen + [ToolDelta(index, part)])
  {
    var builder := if index in builders then builders[index] else ToolCall("", "", "");
    AssembledStep(builders, seen, index, part);
    if part.id != "" {
      builder := builder.(id := part.id);
    }
    if part.name != "" {
      builder := builder.(name := part.name);
    }
    if part.arguments != "" {
      builder := builder.(arguments := builder.arguments + part.arguments);
    }
    out := builders[index := builder];
  }

  /** A text delta (or the end of the stream, when there is none): what the splitter gives up is emitted. */
  method OnText(parser: ReasoningParser, text: Option<string>, output: StreamOutput, hasCallback: bool,
                emitted: seq<StreamEvent>, ghost seen: seq<StreamEvent>)
    returns (output': StreamOutput, emitted': seq<StreamEvent>, ghost log: seq<Event>)
    requires parser.Valid() && parser.start == Text && Tracks(seen, parser.log, output, Told(hasCallback, emitted))
    requires !hasCallback ==> emitted == []
    modifies parser
    ensures parser.Valid() && (!hasCallback ==> emitted' == [])
    ensures output'.toolCalls == output.toolCalls
    ensures text.Some? ==> parser.start == Text && parser.input == old(parser.input) + text.value && log == parser.log
    ensures text.Some? ==> Tracks(seen + [TextDelta(text.value)], log, output', Told(hasCallback, emitted'))
    ensures text.None? ==>
            log == Parse(Text, old(parser.input)) && Tracks(seen, log, output', Told(hasCallback, emitted'))
  {
    ghost var before := parser.log;
    var segments;
    ghost var delta;
    if text.Some? {
      segments, delta := parser.Feed(text.value);
    } else {
      segments, delta := parser.Flush();
      assert seen + [] == seen;
    }
    var textBuilder;
    textBuilder, emitted' := EmitSegments(segments, output.text, hasCallback, emitted);
    TracksText(seen, before, output, Told(hasCallback, emitted),
               if text.Some? then [TextDelta(text.value)] else [], delta, emitted');
    output', log := output.(text := textBuilder), before + delta;
  }

  /** The other events of the loop. */
  method OnOther(event: StreamEvent, output: StreamOutput, builders: map<int, ToolCall>, hasCallback: bool,
                 emitted: seq<StreamEvent>, ghost seen: seq<StreamEvent>, ghost log: seq<Event>)
    returns (output': StreamOutput, builders': map<int, ToolCall>, emitted': seq<StreamEvent>)
    requires !event.TextDelta? && !Stops(event)
    requires Tracks(seen, log, output, Told(hasCallback, emitted)) && Assembled(builders, seen)
    requires !hasCallback ==> emitted == []
    ensures Tracks(seen + [event], log, output', Told(hasCallback, emitted')) && Assembled(builders', seen + [event])
    ensures !hasCallback ==> emitted' == []
  {
    output', builders', emitted' := output, builders, emitted;
    TracksOther(seen, log, output, hasCallback, emitted, event);
    if !event.ToolDelta? {
      AssembledSkip(builders, seen, event);
    }
    match event
    case ReasoningDelta(_) =>
      if hasCallback {
        emitted' := emitted + [event];
      }
    case ToolDelta(index, part) =>
      builders' := AddFragment(builders, index, part, seen);
      if hasCallback {
        emitted' := emitted + [event];
      }
    case Finish(reason, usage) =>
      output' := output.(finish := reason);
      if usage.Some? {
        output' := output'.(usage := usage);
      }
    case Unknown =>
  }

  lemma NothingYet(hasCallback: bool)
    ensures TextInput([]) == "" && Assembled(map[], []) && NoStop([])
    ensures Tracks([], [], NO_OUTPUT, Told(hasCallback, []))
  {
  }

  lemma NoStopMore(seen: seq<StreamEvent>, e: StreamEvent)
    ensures NoStop(seen + [e]) <==> NoStop(seen) && !Stops(e)
  {
    if NoStop(seen + [e]) {
      assert (seen + [e])[|seen|] == e;
      assert forall j :: 0 <= j < |seen| ==> (seen + [e])[j] == seen[j];
    }
  }

  /** Receives the events until the channel is closed or something stops the stream. */
  method Collect(events: seq<StreamEvent>, hasCallback: bool)
    returns (stop: Option<StreamResult>, output: StreamOutput, builders: map<int, ToolCall>,
             emitted: seq<StreamEvent>, ghost log: seq<Event>)
    ensures stop.Some? ==> exists k: nat :: FirstStop(events, k) && stop.value == Stopped(events[k])
    ensures stop.None? ==> NoStop(events) && log == Parse(Text, TextInput(events))
    ensures stop.None? ==> Assembled(builders, events) && Tracks(events, log, output, Told(hasCallback, emitted))
    ensures !hasCallback ==> emitted == []
  {
    hide Tracks, Assembled, TextInput, Resumes, Unparse, Parse, ModeAfter, Visible, NoStop, Stops, Stopped, Told;
    var parser := new ReasoningParser();
    NothingYet(hasCallback);
    stop, output, builders, emitted, log := None, NO_OUTPUT, map[], [], [];
    ghost var seen: seq<StreamEvent> := [];
    var i := 0;
    while i < |events|
      invariant 0 <= i <= |events| && seen == events[..i] && NoStop(seen)
      invariant fresh(parser) && parser.Valid() && parser.start == Text && parser.input == TextInput(seen)
      invariant log == parser.log
      invariant Assembled(builders, seen)
      invariant Tracks(seen, log, output, Told(hasCallback, emitted))
      invariant !hasCallback ==> emitted == []
    {
      var event := events[i];
      if Stops(event) {
        assert FirstStop(events, i);
        stop := Some(Stopped(event));
        return;
      }
      TextInputSnoc(seen, event);
      NoStopMore(seen, event);
      if event.TextDelta? {
        AssembledSkip(builders, seen, event);
        output, emitted, log := OnText(parser, Some(event.text), output, hasCallback, emitted, seen);
      } else {
        output, builders, emitted := OnOther(event, output, builders, hasCallback, emitted, seen, log);
      }
      seen := seen + [event];
      i := i + 1;
    }
    assert seen == events;
    output, emitted, log := OnText(parser, None, output, hasCallback, emitted, seen);
  }

  method Stream(events: seq<StreamEvent>, hasCallback: bool)
    returns (result: StreamResult, emitted: seq<StreamEvent>, ghost order: seq<int>)
    // the first error or abort ends the stream, and nothing else does
    ensures NoStop(events) ==> result.Ok?
    ensures !NoStop(events) ==> exists k: nat :: FirstStop(events, k) && result == Stopped(events[k])
    // chunk invariance: only the concatenation of the text deltas matters
    ensures NoStop(events) ==> result.output.text == OfKind(Text, Visible(Parse(Text, TextInput(events))))
    // interleaving invariance: only each index's own fragments matter
    ensures NoStop(events) ==> IndexOrder(events, order) && result.output.toolCalls == AssembleAll(events, order)
    ensures NoStop(events) ==> forall o :: IndexOrder(events, o) ==> result.output.toolCalls == AssembleAll(events, o)
    ensures NoStop(events) ==> result.output.finish == FinishReason(events) && result.output.usage == LastUsage(events)
    // what the callback saw
    ensures !hasCallback ==> emitted == []
    ensures NoStop(events) && hasCallback ==> ToolEvents(emitted) == ToolEvents(events)
    ensures NoStop(events) && hasCallback ==> OfKind(Text, EventBytes(emitted)) == result.output.text
    ensures NoStop(events) && hasCallback ==>
            Shuffle(Visible(Parse(Text, TextInput(events))), Delivered(events), EventBytes(emitted))
    ensures NoStop(events) && hasCallback && (forall e :: e in events ==> !e.ReasoningDelta?) ==>
              EventBytes(emitted) == Visible(Parse(Text, TextInput(events)))
  {
    hide Shuffle, Delivered, EventBytes, ToolEvents, Parse, Visible, OfKind;
    var output, builders, stop;
    ghost var log;
    stop, output, builders, emitted, log := Collect(events, hasCallback);
    order := [];
    if stop.Some? {
      return stop.value, emitted, order;
    }
    var calls;
    calls, order := BuildToolCalls(builders);
    assert calls == AssembleAll(events, order);
    forall o | IndexOrder(events, o)
      ensures o == order
    {
      AscendingUnique(o, order);
    }
    if hasCallback && forall e :: e in events ==> !e.ReasoningDelta? {
      NothingDelivered(events);
      ShuffleOfOne(Visible(log), EventBytes(emitted));
    }
    return Ok(output.(toolCalls := calls)), emitted, order;
  }

  lemma TextInputSnoc(seen: seq<StreamEvent>, e: StreamEvent)
    ensures TextInput(seen + [e]) == TextInput(seen) + if e.TextDelta? then e.text else ""
  {
    assert (seen + [e])[..|seen|] == seen;
  }
}

/** agent/core_agent/memory_messages.go: the pass over the chat messages that merges the rows of one
    model round, on message objects. Nothing it is given is written to; merged rows are fresh copies. */
module MemoryMessages {
  import opened GoStrings
  import opened CoalesceSpec

  /** The fields that the pass writes are `var`, the others `const`. */
  class ModelMessage {
    const role: string
    const name: string
    const toolCallID: string
    const source: string
    const synthetic: bool
    var content: Content
    var toolCalls: seq<ToolCall>
    var phase: string
    var outputRaw: string
    var reasoningRaws: seq<string>
    var reasoning: string
    var signature: string

    constructor (m: Message)
      ensures Value() == m
    {
      role, content, name, toolCallID, toolCalls, phase := m.role, m.content, m.name, m.toolCallID, m.toolCalls,
        m.phase;
      outputRaw, reasoningRaws, reasoning := m.outputRaw, m.reasoningRaws, m.reasoning;
      signature, source, synthetic := m.signature, m.source, m.synthetic;
    }

    function Value(): Message
      reads this
    {
      Message(role, content, name, toolCallID, toolCalls, phase, outputRaw, reasoningRaws, reasoning, signature, source,
              synthetic)
    }
  }

  function Vals(messages: seq<ModelMessage?>): (rows: seq<Row>)
    reads messages
    ensures |rows| == |messages|
    ensures forall i :: 0 <= i < |rows| ==> rows[i] == if messages[i] == null then None else Some(messages[i].Value())
  {
    seq(|messages|, i requires 0 <= i < |messages| reads messages =>
          if messages[i] == null then None else Some(messages[i].Value()))
  }

  function Values(messages: seq<ModelMessage>): (ms: seq<Message>)
    reads messages
    ensures |ms| == |messages| && forall i :: 0 <= i < |ms| ==> ms[i] == messages[i].Value()
  {
    seq(|messages|, i requires 0 <= i < |messages| reads messages => messages[i].Value())
  }

  method CloneModelMessageForMerge(m: ModelMessage) returns (c: ModelMessage)
    ensures fresh(c) && c.Value() == m.Value()
  {
    c := new ModelMessage(m.Value());
  }

  method MergeAssistantPreludeInto(dst: ModelMessage, prelude: ModelMessage)
    requires dst != prelude
    modifies dst
    ensures dst.Value() == MergePrelude(old(dst.Value()), prelude.Value())
  {
    hide TrimSpace, Render, MergePrelude;
    ghost var was := dst.Value();
    MergeText(dst, prelude);
    MergeRaws(dst, prelude);
    MergeInHalves(was, prelude.Value());
  }

  function TextMerged(dst: Message, prelude: Message): Message {
    dst.(content := MergePrelude(dst, prelude).content, reasoning := MergePrelude(dst, prelude).reasoning,
         signature := MergePrelude(dst, prelude).signature)
  }

  function RawsMerged(dst: Message, prelude: Message): Message {
    dst.(phase := MergePrelude(dst, prelude).phase, outputRaw := MergePrelude(dst, prelude).outputRaw,
         reasoningRaws := MergePrelude(dst, prelude).reasoningRaws)
  }

  lemma MergeInHalves(dst: Message, prelude: Message)
    ensures RawsMerged(TextMerged(dst, prelude), prelude) == MergePrelude(dst, prelude)
  {
    hide TrimSpace, Render;
  }

  /** The first three fields of the merge. */
  method MergeText(dst: ModelMessage, prelude: ModelMessage)
    requires dst != prelude
    modifies dst
    ensures dst.Value() == TextMerged(old(dst.Value()), prelude.Value())
  {
    hide TrimSpace, Render;
    var pc := TrimSpace(Render(prelude.content));
    if pc != "" {
      if TrimSpace(Render(dst.content)) == "" {
        dst.content := Plain(pc);
      }
    }
    var p := TrimSpace(prelude.reasoning);
    if p != "" {
      dst.reasoning := p;
    }
    p := TrimSpace(prelude.signature);
    if p != "" {
      dst.signature := p;
    }
  }

  /** The other three. */
  method MergeRaws(dst: ModelMessage, prelude: ModelMessage)
    requires dst != prelude
    modifies dst
    ensures dst.Value() == RawsMerged(old(dst.Value()), prelude.Value())
  {
    hide TrimSpace, Render;
    if TrimSpace(dst.phase) == "" {
      dst.phase := TrimSpace(prelude.phase);
    }
    if TrimSpace(dst.outputRaw) == "" {
      dst.outputRaw := TrimSpace(prelude.outputRaw);
    }
    if |dst.reasoningRaws| == 0 && |prelude.reasoningRaws| > 0 {
      dst.reasoningRaws := prelude.reasoningRaws;
    }
  }

  // ----- One step of the inner loop, on values -----

  /** The rows `start..i` have been taken in: their calls into `m`, their tool results into `tail`. */
  ghost predicate Absorbed(first: Message, rows: seq<Row>, start: nat, i: nat, m: Message, tail: seq<Message>) {
    && start <= i <= |rows|
    && i + BodyLength(first, rows[i..]) == start + BodyLength(first, rows[start..])
    && m == first.(toolCalls := first.toolCalls + BodyCalls(rows[start..i]))
    && tail == ToolRows(rows[start..i])
  }

  /** ... and the next row does not join. */
  ghost predicate AbsorbedAll(first: Message, rows: seq<Row>, start: nat, i: nat, m: Message, tail: seq<Message>) {
    Absorbed(first, rows, start, i, m, tail) && i == start + BodyLength(first, rows[start..])
  }

  lemma BodySnoc(body: seq<Row>, row: Row)
    ensures BodyCalls(body + [row])
            == BodyCalls(body) + if row.Some? && IsSingleTool(row.value) then row.value.toolCalls else []
    ensures ToolRows(body + [row]) == ToolRows(body) + if row.Some? && IsTool(row.value) then [row.value] else []
  {
    hide IsTool, IsSingleTool;
    assert (body + [row])[..|body|] == body;
  }

  lemma BodyLengthStep(first: Message, rows: seq<Row>, i: nat)
    requires i < |rows|
    ensures BodyLength(first, rows[i..]) == if Joins(first, rows[i]) then 1 + BodyLength(first, rows[i + 1..]) else 0
  {
    hide Joins;
    assert rows[i..][0] == rows[i] && rows[i..][1..] == rows[i + 1..];
  }

  lemma SingleCall(m: Message)
    ensures IsSingleTool(m) ==> |m.toolCalls| == 1 && m.toolCalls == [m.toolCalls[0]] && !IsTool(m)
  {
  }

  lemma OnlySourceMatters(first: Message, merged: Message, m: Message)
    requires merged.source == first.source
    ensures ShouldCoalesce(merged, m) == ShouldCoalesce(first, m)
  {
  }

  lemma AbsorbNext(first: Message, rows: seq<Row>, start: nat, i: nat, m: Message, tail: seq<Message>)
    requires Absorbed(first, rows, start, i, m, tail) && i < |rows| && Joins(first, rows[i])
    ensures var row := rows[i];
            Absorbed(first, rows, start, i + 1,
                     m.(toolCalls :=
                          m.toolCalls + if row.Some? && IsSingleTool(row.value) then row.value.toolCalls else []),
                     tail + if row.Some? && IsTool(row.value) then [row.value] else [])
  {
    hide Joins, IsTool, IsSingleTool, BodyLength, BodyCalls, ToolRows;
    BodyLengthStep(first, rows, i);
    assert rows[start..i + 1] == rows[start..i] + [rows[i]];
    BodySnoc(rows[start..i], rows[i]);
    var calls := if rows[i].Some? && IsSingleTool(rows[i].value) then rows[i].value.toolCalls else [];
    Assoc(first.toolCalls, BodyCalls(rows[start..i]), calls);
  }

  /** What the tests of the inner loop decide. */
  lemma AbsorbStep(first: Message, rows: seq<Row>, start: nat, i: nat, m: Message, tail: seq<Message>)
    requires Absorbed(first, rows, start, i, m, tail) && i < |rows|
    ensures rows[i].None? ==> Absorbed(first, rows, start, i + 1, m, tail)
    ensures rows[i].Some? && IsSingleTool(rows[i].value) && ShouldCoalesce(m, rows[i].value) ==>
              && |rows[i].value.toolCalls| == 1
              && Absorbed(first, rows, start, i + 1, m.(toolCalls := m.toolCalls + [rows[i].value.toolCalls[0]]), tail)
    ensures rows[i].Some? && IsTool(rows[i].value) ==>
              !IsSingleTool(rows[i].value) && Absorbed(first, rows, start, i + 1, m, tail + [rows[i].value])
    ensures rows[i].Some? && !IsTool(rows[i].value)
            && !(IsSingleTool(rows[i].value) && ShouldCoalesce(m, rows[i].value)) ==>
              AbsorbedAll(first, rows, start, i, m, tail)
  {
    hide IsTool, IsSingleTool, ShouldCoalesce;
    if rows[i].Some? {
      SingleCall(rows[i].value);
      OnlySourceMatters(first, m, rows[i].value);
    }
    BodyLengthStep(first, rows, i);
    if Joins(first, rows[i]) {
      AbsorbNext(first, rows, start, i, m, tail);
      assert m.(toolCalls := m.toolCalls + []) == m && tail + [] == tail;
    }
  }

  lemma AbsorbStart(first: Message, rows: seq<Row>, start: nat)
    requires start <= |rows|
    ensures Absorbed(first, rows, start, start, first, [])
  {
    assert rows[start..start] == [] && first.toolCalls + [] == first.toolCalls;
  }

  lemma AbsorbEnd(first: Message, rows: seq<Row>, start: nat, m: Message, tail: seq<Message>)
    requires Absorbed(first, rows, start, |rows|, m, tail)
    ensures AbsorbedAll(first, rows, start, |rows|, m, tail)
  {
    assert rows[|rows|..] == [];
  }

  // ----- Which output messages are the input's own objects -----

  /** The places of the tool rows among `start..i`. */
  function ToolPlaces(rows: seq<Row>, start: nat, i: nat): seq<nat>
    requires start <= i <= |rows|
    decreases i
  {
    if i == start then []
    else ToolPlaces(rows, start, i - 1) + if rows[i - 1].Some? && IsTool(rows[i - 1].value) then [i - 1] else []
  }

  function Somewhere(places: seq<nat>): (o: seq<Option<nat>>)
    ensures |o| == |places| && forall k :: 0 <= k < |o| ==> o[k] == Some(places[k])
  {
    seq(|places|, k requires 0 <= k < |places| => Some(places[k]))
  }

  /** Where each output message of the block at `i` comes from: the row at a place, or None for the merged copy. */
  function BlockOrigins(rows: seq<Row>, i: nat): seq<Option<nat>>
    requires i < |rows|
  {
    FirstBlockRows(rows[i..]);
    var b := FirstBlock(rows[i..]);
    var next := i + |Rows(b)|;
    match b
    case Gap => []
    case Kept(_) => [Some(i)]
    case Merged(_, _, body) => [None] + Somewhere(ToolPlaces(rows, next - |body|, next))
  }

  function Origins(rows: seq<Row>, i: nat): seq<Option<nat>>
    requires i <= |rows|
    decreases |rows| - i
  {
    if i == |rows| then []
    else
      FirstBlockRows(rows[i..]);
      BlockOrigins(rows, i) + Origins(rows, i + |Rows(FirstBlock(rows[i..]))|)
  }

  /** The objects are those at the given places; None stands for an object that is not among the messages. */
  ghost predicate Are(messages: seq<ModelMessage?>, objects: seq<ModelMessage?>, origins: seq<Option<nat>>) {
    && |objects| == |origins|
    && forall k :: 0 <= k < |objects| ==>
         if origins[k].Some? then origins[k].value < |messages| && objects[k] == messages[origins[k].value]
         else objects[k] !in messages
  }

  lemma AreMore(messages: seq<ModelMessage?>, a: seq<ModelMessage?>, b: seq<ModelMessage?>, o: seq<Option<nat>>,
                p: seq<Option<nat>>)
    requires Are(messages, a, o) && Are(messages, b, p)
    ensures Are(messages, a + b, o + p)
  {
  }

  /** One more row: a tool row goes to the tail as it is, any other does not. */
  lemma TailStep(messages: seq<ModelMessage?>, rows: seq<Row>, start: nat, i: nat, tail: seq<ModelMessage?>)
    requires start <= i < |rows| == |messages| && Are(messages, tail, Somewhere(ToolPlaces(rows, start, i)))
    ensures if rows[i].Some? && IsTool(rows[i].value)
            then Are(messages, tail + [messages[i]], Somewhere(ToolPlaces(rows, start, i + 1)))
            else Are(messages, tail, Somewhere(ToolPlaces(rows, start, i + 1)))
  {
    hide IsTool;
  }

  lemma NoToolPlaces(rows: seq<Row>, start: nat, messages: seq<ModelMessage?>)
    requires start <= |rows|
    ensures Are(messages, [], Somewhere(ToolPlaces(rows, start, start)))
  {
  }

  /** The loop that both cases share: the rows that join are taken in, calls into `merged`, tool results into the
      tail. */
  method AbsorbRows(messages: seq<ModelMessage?>, start: nat, merged: ModelMessage)
    returns (i: nat, tail: seq<ModelMessage>)
    requires start <= |messages| && merged !in messages
    modifies merged
    ensures start <= i <= |messages| && merged !in tail
    ensures AbsorbedAll(old(merged.Value()), Vals(messages), start, i, merged.Value(), Values(tail))
    ensures Are(messages, tail, Somewhere(ToolPlaces(Vals(messages), start, i)))
  {
    hide IsTool, IsSingleTool, ShouldCoalesce, Absorbed, AbsorbedAll, ToolPlaces, Are;
    i, tail := start, [];
    ghost var first, rows := merged.Value(), Vals(messages);
    AbsorbStart(first, rows, start);
    NoToolPlaces(rows, start, messages);
    while i < |messages|
      invariant start <= i <= |messages| && merged !in tail
      invariant Absorbed(first, rows, start, i, merged.Value(), Values(tail))
      invariant Are(messages, tail, Somewhere(ToolPlaces(rows, start, i)))
    {
      var msg := messages[i];
      TailStep(messages, rows, start, i, tail);
      assert rows[i] == if msg == null then None else Some(msg.Value());
      AbsorbStep(first, rows, start, i, merged.Value(), Values(tail));
      if msg == null {
        i := i + 1;
        continue;
      }
      if IsSingleTool(msg.Value()) {
        if !ShouldCoalesce(merged.Value(), msg.Value()) {
          break;
        }
        merged.toolCalls := merged.toolCalls + [msg.toolCalls[0]];
        i := i + 1;
        if i < |messages| && messages[i] != null && IsTool(messages[i].Value()) {
          assert rows[i] == Some(messages[i].Value());
          AbsorbStep(first, rows, start, i, merged.Value(), Values(tail));
          TailStep(messages, rows, start, i, tail);
          assert Values(tail + [messages[i]]) == Values(tail) + [messages[i].Value()];
          tail := tail + [messages[i]];
          i := i + 1;
        }
        continue;
      }
      if IsTool(msg.Value()) {
        assert Values(tail + [msg]) == Values(tail) + [msg.Value()];
        tail := tail + [msg];
        i := i + 1;
        continue;
      }
      break;
    }
    if i == |messages| {
      AbsorbEnd(first, rows, start, merged.Value(), Values(tail));
    }
  }

  // ----- One step of the outer loop, on values -----

  lemma CoalesceStep(rows: seq<Row>, i: nat)
    requires i < |rows|
    ensures var b := FirstBlock(rows[i..]);
            i + |Rows(b)| <= |rows| && Coalesce(rows[i..]) == Emit(b) + Coalesce(rows[i + |Rows(b)|..])
  {
    hide FirstBlock, Emit, Rows;
    var r := rows[i..];
    FirstBlockRows(r);
    var b := FirstBlock(r);
    assert r[|Rows(b)|..] == rows[i + |Rows(b)|..];
    assert Blocks(r) == [b] + Blocks(r[|Rows(b)|..]);
    assert Blocks(r)[1..] == Blocks(r[|Rows(b)|..]);
  }

  /** Nils are dropped; a row that starts no merge is kept. */
  lemma CoalesceOne(rows: seq<Row>, i: nat)
    requires i < |rows|
    requires rows[i].Some? ==> !StartsWithPrelude(rows[i..]) && !IsSingleTool(rows[i].value)
    ensures Coalesce(rows[i..]) == (if rows[i].None? then [] else [rows[i].value]) + Coalesce(rows[i + 1..])
    ensures Origins(rows, i) == (if rows[i].None? then [] else [Some(i)]) + Origins(rows, i + 1)
  {
    hide StartsWithPrelude, IsSingleTool, Coalesce;
    CoalesceStep(rows, i);
    assert rows[i..][0] == rows[i];
  }

  lemma {:induction false} SameSourceSameBody(first: Message, other: Message, rows: seq<Row>)
    requires first.source == other.source
    ensures BodyLength(first, rows) == BodyLength(other, rows)
    decreases |rows|
  {
    hide IsTool, IsSingleTool, ShouldCoalesce;
    if rows != [] {
      if rows[0].Some? {
        OnlySourceMatters(first, other, rows[0].value);
      }
      SameSourceSameBody(first, other, rows[1..]);
    }
  }

  lemma PreludeKeepsSource(first: Message, prelude: Message)
    ensures MergePrelude(first, prelude).source == first.source
    ensures MergePrelude(first, prelude).toolCalls == first.toolCalls
  {
  }

  /** What the inner loop leaves is what the block becomes. */
  lemma CoalesceMerge(rows: seq<Row>, i: nat, prelude: Option<Message>, m: Message, tail: seq<Message>, next: nat)
    requires i < |rows| && rows[i].Some?
    requires if prelude.Some? then StartsWithPrelude(rows[i..]) && prelude == rows[i]
             else IsSingleTool(rows[i].value) && !StartsWithPrelude(rows[i..])
    requires var start := if prelude.Some? then i + 2 else i + 1;
             && start <= |rows| && rows[start - 1].Some?
             && var first := rows[start - 1].value;
                AbsorbedAll(if prelude.Some? then MergePrelude(first, prelude.value) else first,
                            rows, start, next, m, tail)
    ensures next <= |rows| && Coalesce(rows[i..]) == [m] + tail + Coalesce(rows[next..])
    ensures var start := if prelude.Some? then i + 2 else i + 1;
            start <= next && next == start + BodyLength(rows[start - 1].value, rows[start..])
  {
    hide StartsWithPrelude, IsSingleTool, MergePrelude, BodyLength, BodyCalls, ToolRows, Coalesce, FirstBlock, Rows;
    var start := if prelude.Some? then i + 2 else i + 1;
    var first := rows[start - 1].value;
    var copy := if prelude.Some? then MergePrelude(first, prelude.value) else first;
    if prelude.Some? {
      PreludeKeepsSource(first, prelude.value);
    }
    SameSourceSameBody(first, copy, rows[start..]);
    MergedBlock(rows, i, prelude, next);
    CoalesceStep(rows, i);
    assert m == MergedMessage(prelude, first, rows[start..next]);
  }

  /** A merge leaves one new object and the tool results of the block. */
  lemma MergeOrigins(rows: seq<Row>, i: nat, prelude: Option<Message>, next: nat)
    requires i < |rows| && rows[i].Some?
    requires if prelude.Some? then StartsWithPrelude(rows[i..]) && prelude == rows[i]
             else IsSingleTool(rows[i].value) && !StartsWithPrelude(rows[i..])
    requires var start := if prelude.Some? then i + 2 else i + 1;
             && start <= next <= |rows| && rows[start - 1].Some?
             && next == start + BodyLength(rows[start - 1].value, rows[start..])
    ensures var start := if prelude.Some? then i + 2 else i + 1;
            Origins(rows, i) == [None] + Somewhere(ToolPlaces(rows, start, next)) + Origins(rows, next)
  {
    hide StartsWithPrelude, IsSingleTool, BodyLength, ToolPlaces, FirstBlock, Rows, Origins;
    MergedBlock(rows, i, prelude, next);
    OriginsStep(rows, i);
  }

  lemma MergedBlock(rows: seq<Row>, i: nat, prelude: Option<Message>, next: nat)
    requires i < |rows| && rows[i].Some?
    requires if prelude.Some? then StartsWithPrelude(rows[i..]) && prelude == rows[i]
             else IsSingleTool(rows[i].value) && !StartsWithPrelude(rows[i..])
    requires var start := if prelude.Some? then i + 2 else i + 1;
             && start <= next <= |rows| && rows[start - 1].Some?
             && next == start + BodyLength(rows[start - 1].value, rows[start..])
    ensures var start := if prelude.Some? then i + 2 else i + 1;
            var b := Merged(prelude, rows[start - 1].value, rows[start..next]);
            FirstBlock(rows[i..]) == b && |Rows(b)| == next - i
  {
    hide StartsWithPrelude, IsSingleTool, BodyLength;
    var start := if prelude.Some? then i + 2 else i + 1;
    var r := rows[i..];
    TakeAway(rows, i, start, next);
    if prelude.Some? {
      StartsTwo(r);
      assert r[1] == rows[i + 1];
    } else {
      assert r[0] == rows[i];
    }
  }

  lemma OriginsStep(rows: seq<Row>, i: nat)
    requires i < |rows|
    ensures var n := |Rows(FirstBlock(rows[i..]))|;
            i + n <= |rows| && Origins(rows, i) == BlockOrigins(rows, i) + Origins(rows, i + n)
  {
    hide FirstBlock, BlockOrigins;
    FirstBlockRows(rows[i..]);
  }

  lemma StartsTwo(rows: seq<Row>)
    requires StartsWithPrelude(rows)
    ensures |rows| >= 2 && rows[0].Some? && rows[1].Some? && !IsSingleTool(rows[0].value)
  {
  }

  lemma TakeAway(rows: seq<Row>, i: nat, start: nat, next: nat)
    requires i <= start <= next <= |rows|
    ensures rows[i..][start - i..] == rows[start..] && rows[start..][..next - start] == rows[start..next]
  {
  }

  lemma StartsAt(rows: seq<Row>, i: nat)
    requires i < |rows|
    ensures StartsWithPrelude(rows[i..]) <==>
              && rows[i].Some? && IsTextOnly(rows[i].value) && i + 1 < |rows| && rows[i + 1].Some?
              && IsSingleTool(rows[i + 1].value) && ShouldMerge(rows[i].value, rows[i + 1].value)
  {
    hide IsTextOnly, IsSingleTool, ShouldMerge;
    assert rows[i..][0] == rows[i] && (i + 1 < |rows| ==> rows[i..][1] == rows[i + 1]);
  }

  /** The rows before `i` are done: `kept` is what they become, from the places `origins`. */
  ghost predicate Done(messages: seq<ModelMessage?>, rows: seq<Row>, kept: seq<ModelMessage>, i: nat,
                       origins: seq<Option<nat>>)
    reads kept
  {
    && i <= |rows|
    && Values(kept) + Coalesce(rows[i..]) == Coalesce(rows)
    && Are(messages, kept, origins) && origins + Origins(rows, i) == Origins(rows, 0)
  }

  lemma DoneMore(messages: seq<ModelMessage?>, rows: seq<Row>, kept: seq<ModelMessage>, i: nat,
                 origins: seq<Option<nat>>, more: seq<ModelMessage>, next: nat, places: seq<Option<nat>>)
    requires Done(messages, rows, kept, i, origins) && i <= next <= |rows| && Are(messages, more, places)
    requires Coalesce(rows[i..]) == Values(more) + Coalesce(rows[next..])
    requires Origins(rows, i) == places + Origins(rows, next)
    ensures Done(messages, rows, kept + more, next, origins + places)
  {
    hide Coalesce, Origins, Are;
    assert Values(kept + more) == Values(kept) + Values(more);
    Assoc(Values(kept), Values(more), Coalesce(rows[next..]));
    AreMore(messages, kept, more, origins, places);
    Assoc(origins, places, Origins(rows, next));
  }

  lemma NothingDone(messages: seq<ModelMessage?>, rows: seq<Row>)
    ensures Done(messages, rows, [], 0, [])
  {
    hide Coalesce, Origins;
    assert rows[0..] == rows;
  }

  lemma AllDone(messages: seq<ModelMessage?>, rows: seq<Row>, kept: seq<ModelMessage>, origins: seq<Option<nat>>)
    requires Done(messages, rows, kept, |rows|, origins)
    ensures Values(kept) == Coalesce(rows) && Are(messages, kept, Origins(rows, 0))
  {
    hide Are;
    CoalesceNone(rows);
    assert Values(kept) + [] == Values(kept) && origins + [] == origins;
  }

  lemma CoalesceNone(rows: seq<Row>)
    ensures Coalesce(rows[|rows|..]) == [] && Origins(rows, |rows|) == []
  {
  }

  /** The merged message and the tail are what the block becomes, and which objects they are. */
  lemma MergeMade(messages: seq<ModelMessage?>, rows: seq<Row>, i: nat, prelude: Option<Message>,
                  merged: ModelMessage, tail: seq<ModelMessage>, next: nat)
    requires i < |rows| && rows[i].Some?
    requires if prelude.Some? then StartsWithPrelude(rows[i..]) && prelude == rows[i]
             else IsSingleTool(rows[i].value) && !StartsWithPrelude(rows[i..])
    requires var start := if prelude.Some? then i + 2 else i + 1;
             && start <= next <= |rows| && rows[start - 1].Some?
             && Are(messages, tail, Somewhere(ToolPlaces(rows, start, next)))
             && var first := rows[start - 1].value;
                AbsorbedAll(if prelude.Some? then MergePrelude(first, prelude.value) else first,
                            rows, start, next, merged.Value(), Values(tail))
    requires merged !in messages
    ensures Coalesce(rows[i..]) == Values([merged] + tail) + Coalesce(rows[next..])
    ensures var start := if prelude.Some? then i + 2 else i + 1;
            var origins := [None] + Somewhere(ToolPlaces(rows, start, next));
            && |origins| == 1 + |tail| && Are(messages, [merged] + tail, origins)
            && Origins(rows, i) == origins + Origins(rows, next)
  {
    hide IsSingleTool, MergePrelude, Coalesce, StartsWithPrelude, AbsorbedAll, ToolPlaces, Origins, Are, BodyLength,
      Somewhere;
    var start := if prelude.Some? then i + 2 else i + 1;
    CoalesceMerge(rows, i, prelude, merged.Value(), Values(tail), next);
    MergeOrigins(rows, i, prelude, next);
    NewOne(messages, merged);
    SameCount(messages, tail, Somewhere(ToolPlaces(rows, start, next)));
    AreMore(messages, [merged], tail, [None], Somewhere(ToolPlaces(rows, start, next)));
    assert Values([merged] + tail) == [merged.Value()] + Values(tail);
  }

  lemma SameCount(messages: seq<ModelMessage?>, objects: seq<ModelMessage?>, origins: seq<Option<nat>>)
    requires Are(messages, objects, origins)
    ensures |objects| == |origins|
  {
  }

  /** One merge: a copy of the tool-calling row, with the text row in front when there is one, takes in the rows that
      follow. */
  method MergeRound(messages: seq<ModelMessage?>, ghost rows: seq<Row>, i: nat, prelude: ModelMessage?,
                    first: ModelMessage)
    returns (round: seq<ModelMessage>, next: nat, ghost origins: seq<Option<nat>>)
    requires i < |messages| && messages[i] != null && rows == Vals(messages)
    requires if prelude != null then
               && StartsWithPrelude(rows[i..]) && i + 1 < |messages|
               && prelude == messages[i] && first == messages[i + 1]
             else !StartsWithPrelude(rows[i..]) && IsSingleTool(messages[i].Value()) && first == messages[i]
    ensures i < next <= |messages|
    ensures Coalesce(rows[i..]) == Values(round) + Coalesce(rows[next..])
    ensures |origins| == |round| && Are(messages, round, origins) && Origins(rows, i) == origins + Origins(rows, next)
  {
    hide IsSingleTool, MergePrelude, Coalesce, StartsWithPrelude, AbsorbedAll, ToolPlaces, Origins, Are, BodyLength,
      Somewhere;
    var start := if prelude != null then i + 2 else i + 1;
    var merged := CloneModelMessageForMerge(first);
    if prelude != null {
      MergeAssistantPreludeInto(merged, prelude);
    }
    var tailTools;
    next, tailTools := AbsorbRows(messages, start, merged);
    MergeMade(messages, rows, i, if prelude != null then rows[i] else None, merged, tailTools, next);
    round := [merged] + tailTools;
    origins := [None] + Somewhere(ToolPlaces(rows, start, next));
  }

  lemma NewOne(messages: seq<ModelMessage?>, m: ModelMessage)
    requires m !in messages
    ensures Are(messages, [m], [None])
  {
  }

  lemma InPlace(messages: seq<ModelMessage?>, i: nat)
    requires i < |messages|
    ensures Are(messages, [messages[i]], [Some(i)]) && Are(messages, [], [])
  {
  }

  /** The pass as the source makes it is the pass on values, whatever the messages alias; the rows that are not
      merged, and all tool results, are the very objects that were given, and a merged row is none of them. */
  method CoalesceAssistantNativeToolMessages(messages: seq<ModelMessage?>) returns (out: seq<ModelMessage?>)
    ensures |messages| < 2 ==> out == messages
    ensures |messages| >= 2 ==> Vals(out) == Somes(Coalesce(Vals(messages)))
    ensures |messages| >= 2 ==> Are(messages, out, Origins(Vals(messages), 0))
  {
    hide IsTextOnly, IsSingleTool, ShouldMerge, MergePrelude, Coalesce, StartsWithPrelude, AbsorbedAll, Are, Origins,
      Done;
    if |messages| < 2 {
      return messages;
    }
    var kept: seq<ModelMessage> := [];
    ghost var rows := Vals(messages);
    ghost var origins: seq<Option<nat>> := [];
    NothingDone(messages, rows);
    var i := 0;
    while i < |messages|
      invariant 0 <= i <= |messages| && rows == Vals(messages)
      invariant Done(messages, rows, kept, i, origins)
    {
      var cur := messages[i];
      assert rows[i] == if cur == null then None else Some(cur.Value());
      StartsAt(rows, i);
      if cur == null {
        CoalesceOne(rows, i);
        InPlace(messages, i);
        DoneMore(messages, rows, kept, i, origins, [], i + 1, []);
        assert kept + [] == kept && origins + [] == origins;
        i := i + 1;
        continue;
      }
      if IsTextOnly(cur.Value()) && i + 1 < |messages| && messages[i + 1] != null
        && IsSingleTool(messages[i + 1].Value())
         && ShouldMerge(cur.Value(), messages[i + 1].Value()) {
        assert rows[i + 1] == Some(messages[i + 1].Value());
        var round, next, places := MergeRound(messages, rows, i, cur, messages[i + 1]);
        DoneMore(messages, rows, kept, i, origins, round, next, places);
        kept, i, origins := kept + round, next, origins + places;
        continue;
      }
      if IsSingleTool(cur.Value()) {
        var round, next, places := MergeRound(messages, rows, i, null, cur);
        DoneMore(messages, rows, kept, i, origins, round, next, places);
        kept, i, origins := kept + round, next, origins + places;
        continue;
      }
      CoalesceOne(rows, i);
      InPlace(messages, i);
      DoneMore(messages, rows, kept, i, origins, [cur], i + 1, [Some(i)]);
      kept, origins := kept + [cur], origins + [Some(i)];
      i := i + 1;
    }
    AllDone(messages, rows, kept, origins);
    out := kept;
  }
}

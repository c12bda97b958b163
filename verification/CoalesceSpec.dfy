/** agent/core_agent/memory_messages.go, on values: which chat rows are merged into which, and what the
    merging keeps. The code that does it in place is in module MemoryMessages. */
module CoalesceSpec {
  import opened GoStrings

  datatype ToolCall = ToolCall(id: string, name: string, arguments: string)

  /** A message body: absent, a plain string, or parts whose text renders to the given string. */
  datatype Content = NoContent | Plain(text: string) | Parts(rendered: string)

  datatype Message = Message(
    role: string,
    content: Content,
    name: string,
    toolCallID: string,
    toolCalls: seq<ToolCall>,
    phase: string,
    outputRaw: string,
    reasoningRaws: seq<string>,
    reasoning: string,
    signature: string,
    source: string,
    synthetic: bool)

  /** A row of the history; the source's slices may hold nil pointers. */
  type Row = Option<Message>

  function Render(c: Content): string {
    match c
    case NoContent => ""
    case Plain(text) => TrimSpace(text)
    case Parts(rendered) => rendered
  }

  // ----- The tests -----

  predicate IsTool(m: Message) {
    TrimSpace(m.role) == "tool"
  }

  predicate IsAssistant(m: Message) {
    TrimSpace(m.role) == "assistant"
  }

  predicate IsTextOnly(m: Message) {
    IsAssistant(m) && |m.toolCalls| == 0
  }

  predicate IsSingleTool(m: Message) {
    IsAssistant(m) && |m.toolCalls| == 1
  }

  predicate ShouldMerge(text: Message, tool: Message) {
    var a, b := TrimSpace(text.source), TrimSpace(tool.source);
    !text.synthetic && if a != "" && b != "" then a == b else a == "" && b == ""
  }

  predicate ShouldCoalesce(first: Message, next: Message) {
    var a, b := TrimSpace(first.source), TrimSpace(next.source);
    a != "" && b != "" && a == b
  }

  function MergePrelude(dst: Message, prelude: Message): Message {
    var pc, pr, ps := Render(prelude.content), TrimSpace(prelude.reasoning), TrimSpace(prelude.signature);
    dst.(content :=
           if TrimSpace(pc) != "" && TrimSpace(Render(dst.content)) == "" then Plain(TrimSpace(pc)) else dst.content,
         reasoning := if pr != "" then pr else dst.reasoning,
         signature := if ps != "" then ps else dst.signature,
         phase := if TrimSpace(dst.phase) == "" then TrimSpace(prelude.phase) else dst.phase,
         outputRaw := if TrimSpace(dst.outputRaw) == "" then TrimSpace(prelude.outputRaw) else dst.outputRaw,
         reasoningRaws :=
           if |dst.reasoningRaws| == 0 && |prelude.reasoningRaws| > 0 then prelude.reasoningRaws else dst.reasoningRaws)
  }

  // ----- Blocks: which rows go together -----

  /** A stretch of rows and what becomes of it: a nil is dropped, a row is kept, or a tool-calling row
      takes in the text before it and the calls of the rows after it. */
  datatype Block =
    | Gap
    | Kept(m: Message)
    | Merged(prelude: Option<Message>, first: Message, body: seq<Row>)

  /** May this row join a block that began with `first`? */
  predicate Joins(first: Message, row: Row) {
    row.None? || IsTool(row.value) || (IsSingleTool(row.value) && ShouldCoalesce(first, row.value))
  }

  /** How many of the rows that follow join the block. */
  function BodyLength(first: Message, rows: seq<Row>): (n: nat)
    ensures n <= |rows|
    ensures forall i :: 0 <= i < n ==> Joins(first, rows[i])
    ensures n < |rows| ==> !Joins(first, rows[n])
  {
    if rows == [] || !Joins(first, rows[0]) then 0 else 1 + BodyLength(first, rows[1..])
  }

  predicate StartsWithPrelude(rows: seq<Row>) {
    && |rows| >= 2 && rows[0].Some? && rows[1].Some?
    && IsTextOnly(rows[0].value) && IsSingleTool(rows[1].value) && ShouldMerge(rows[0].value, rows[1].value)
  }

  function FirstBlock(rows: seq<Row>): Block
    requires rows != []
  {
    if rows[0].None? then Gap
    else if StartsWithPrelude(rows) then
      Merged(Some(rows[0].value), rows[1].value, rows[2..][..BodyLength(rows[1].value, rows[2..])])
    else if IsSingleTool(rows[0].value) then
      Merged(None, rows[0].value, rows[1..][..BodyLength(rows[0].value, rows[1..])])
    else Kept(rows[0].value)
  }

  /** The input rows that a block covers. */
  function Rows(b: Block): seq<Row> {
    match b
    case Gap => [None]
    case Kept(m) => [Some(m)]
    case Merged(prelude, first, body) => (if prelude.Some? then [prelude] else []) + [Some(first)] + body
  }

  lemma FirstBlockRows(rows: seq<Row>)
    requires rows != []
    ensures var n := |Rows(FirstBlock(rows))|; 0 < n <= |rows| && Rows(FirstBlock(rows)) == rows[..n]
  {
    hide BodyLength, Joins, IsTextOnly, IsSingleTool, ShouldMerge, Rows;
    match FirstBlock(rows) {
      case Gap => GapRows();
      case Kept(m) => KeptRows(m);
      case Merged(prelude, first, body) => MergedRows(rows, if prelude.Some? then 2 else 1, |body|);
    }
  }

  lemma GapRows()
    ensures Rows(Gap) == [None]
  {
  }

  lemma KeptRows(m: Message)
    ensures Rows(Kept(m)) == [Some(m)]
  {
  }

  lemma MergedRows(rows: seq<Row>, start: nat, n: nat)
    requires 1 <= start <= 2 && start + n <= |rows| && rows[start - 1].Some?
    ensures Rows(Merged(if start == 2 then rows[0] else None, rows[start - 1].value, rows[start..][..n])) ==
            if start == 2 && rows[0].None? then rows[1..start + n] else rows[..start + n]
  {
    var first, body := rows[start - 1], rows[start..][..n];
    assert rows[start - 1..start + n] == [first] + body;
    assert start == 2 ==> rows[..start + n] == [rows[0]] + ([first] + body);
  }

  function Blocks(rows: seq<Row>): seq<Block>
    decreases |rows|
  {
    if rows == [] then []
    else
      FirstBlockRows(rows);
      [FirstBlock(rows)] + Blocks(rows[|Rows(FirstBlock(rows))|..])
  }

  /** The calls of the tool-calling rows of a block's body. */
  function BodyCalls(body: seq<Row>): seq<ToolCall> {
    if body == [] then []
    else var last := body[|body| - 1];
         BodyCalls(body[..|body| - 1]) + if last.Some? && IsSingleTool(last.value) then last.value.toolCalls else []
  }

  /** The tool rows among `rows`. */
  function ToolRows(rows: seq<Row>): seq<Message> {
    if rows == [] then []
    else var last := rows[|rows| - 1];
         ToolRows(rows[..|rows| - 1]) + if last.Some? && IsTool(last.value) then [last.value] else []
  }

  function MergedMessage(prelude: Option<Message>, first: Message, body: seq<Row>): Message {
    var m := if prelude.Some? then MergePrelude(first, prelude.value) else first;
    m.(toolCalls := m.toolCalls + BodyCalls(body))
  }

  /** What a block becomes. */
  function Emit(b: Block): seq<Message> {
    match b
    case Gap => []
    case Kept(m) => [m]
    case Merged(prelude, first, body) => [MergedMessage(prelude, first, body)] + ToolRows(body)
  }

  function EmitAll(blocks: seq<Block>): seq<Message> {
    if blocks == [] then [] else Emit(blocks[0]) + EmitAll(blocks[1..])
  }

  /** coalesceAssistantNativeToolMessages, for a list of at least two rows. */
  function Coalesce(rows: seq<Row>): seq<Message> {
    EmitAll(Blocks(rows))
  }

  // ----- No merge crosses a boundary -----

  /** The shape of a block: a merge is a contiguous run that shares one non-empty source (or a single
      tool-calling row), with at most one text row of that round in front, and only tool rows and gaps between. */
  predicate WellFormed(b: Block) {
    match b
    case Gap => true
    case Kept(m) => !IsSingleTool(m)
    case Merged(prelude, first, body) =>
      && IsSingleTool(first)
      && (prelude.Some? ==> IsTextOnly(prelude.value) && ShouldMerge(prelude.value, first))
      && (forall i :: 0 <= i < |body| ==> Joins(first, body[i]))
      && forall i :: 0 <= i < |body| && body[i].Some? && !IsTool(body[i].value) ==>
           TrimSpace(body[i].value.source) == TrimSpace(first.source) != ""
  }

  /** A merge goes on as far as it can: the next row is one that may not join. */
  predicate Ends(b: Block, rest: seq<Block>) {
    b.Merged? && rest != [] ==> Rows(rest[0]) != [] && !Joins(b.first, Rows(rest[0])[0])
  }

  function AllRows(blocks: seq<Block>): seq<Row> {
    if blocks == [] then [] else Rows(blocks[0]) + AllRows(blocks[1..])
  }

  predicate AllWellFormed(blocks: seq<Block>) {
    blocks == [] || (WellFormed(blocks[0]) && Ends(blocks[0], blocks[1..]) && AllWellFormed(blocks[1..]))
  }

  lemma FirstBlockWellFormed(rows: seq<Row>)
    requires rows != []
    ensures var b := FirstBlock(rows);
            var n := |Rows(b)|;
            && 0 < n <= |rows| && Rows(b) == rows[..n] && WellFormed(b)
            && (b.Merged? && n < |rows| ==> !Joins(b.first, rows[n]))
  {
    hide ShouldMerge;
    FirstBlockRows(rows);
    if StartsWithPrelude(rows) {
      var k := BodyLength(rows[1].value, rows[2..]);
      assert k < |rows[2..]| ==> rows[2..][k] == rows[2 + k];
    } else if rows[0].Some? && IsSingleTool(rows[0].value) {
      var k := BodyLength(rows[0].value, rows[1..]);
      assert k < |rows[1..]| ==> rows[1..][k] == rows[1 + k];
    }
  }

  /** The blocks cut the rows into consecutive stretches, each of the shape above and as long as possible. */
  lemma {:induction false} BlocksPartition(rows: seq<Row>)
    ensures AllRows(Blocks(rows)) == rows
    ensures AllWellFormed(Blocks(rows))
    decreases |rows|
  {
    hide FirstBlock, WellFormed, Ends, Rows;
    if rows != [] {
      FirstBlockWellFormed(rows);
      FirstEnds(rows);
      var b := FirstBlock(rows);
      var rest := rows[|Rows(b)|..];
      BlocksPartition(rest);
      assert rows == rows[..|Rows(b)|] + rest;
      assert Blocks(rows) == [b] + Blocks(rest);
      assert Blocks(rows)[1..] == Blocks(rest);
    }
  }

  lemma FirstEnds(rows: seq<Row>)
    requires rows != []
    ensures |Rows(FirstBlock(rows))| <= |rows|
    ensures Ends(FirstBlock(rows), Blocks(rows[|Rows(FirstBlock(rows))|..]))
  {
    hide FirstBlock, WellFormed, Joins, Rows;
    FirstBlockWellFormed(rows);
    var n := |Rows(FirstBlock(rows))|;
    var rest := rows[n..];
    if rest != [] {
      FirstBlockWellFormed(rest);
      assert Blocks(rest)[0] == FirstBlock(rest);
      assert Rows(FirstBlock(rest))[0] == rest[0] == rows[n];
    }
  }

  // ----- What coalescing keeps -----

  /** All calls made by rows that are not tool results, in order. */
  function Calls(rows: seq<Row>): seq<ToolCall> {
    if rows == [] then []
    else Calls(rows[..|rows| - 1]) + RowCalls(rows[|rows| - 1])
  }

  function RowCalls(row: Row): seq<ToolCall> {
    if row.Some? && !IsTool(row.value) then row.value.toolCalls else []
  }

  /** The messages of the other roles: user, system and whatever else. */
  function Others(rows: seq<Row>): seq<Message> {
    if rows == [] then []
    else Others(rows[..|rows| - 1]) + RowOthers(rows[|rows| - 1])
  }

  function RowOthers(row: Row): seq<Message> {
    if row.Some? && !IsTool(row.value) && !IsAssistant(row.value) then [row.value] else []
  }

  function Somes(ms: seq<Message>): (rows: seq<Row>)
    ensures |rows| == |ms| && forall i :: 0 <= i < |rows| ==> rows[i] == Some(ms[i])
  {
    seq(|ms|, i requires 0 <= i < |ms| => Some(ms[i]))
  }

  lemma {:induction false} RowsConcat(a: seq<Row>, b: seq<Row>)
    ensures Calls(a + b) == Calls(a) + Calls(b)
    ensures ToolRows(a + b) == ToolRows(a) + ToolRows(b)
    ensures Others(a + b) == Others(a) + Others(b)
    decreases |b|
  {
    hide IsTool, IsAssistant;
    if b == [] {
      assert a + b == a;
    } else {
      var init, last := b[..|b| - 1], b[|b| - 1];
      RowsConcat(a, init);
      assert (a + b)[..|a + b| - 1] == a + init && (a + b)[|a + b| - 1] == last;
      Assoc(Calls(a), Calls(init), RowCalls(last));
      Assoc(Others(a), Others(init), RowOthers(last));
      Assoc(ToolRows(a), ToolRows(init), if last.Some? && IsTool(last.value) then [last.value] else []);
    }
  }

  predicate AllTools(ms: seq<Message>) {
    forall i :: 0 <= i < |ms| ==> IsTool(ms[i])
  }

  lemma {:induction false} ToolRowsAreTools(rows: seq<Row>)
    ensures AllTools(ToolRows(rows))
  {
    hide IsTool;
    if rows != [] {
      ToolRowsAreTools(rows[..|rows| - 1]);
    }
  }

  /** Tool results make no calls, and are nothing but tool results. */
  lemma {:induction false} ToolsMakeNoCalls(tools: seq<Message>)
    requires AllTools(tools)
    ensures Calls(Somes(tools)) == [] && Others(Somes(tools)) == [] && ToolRows(Somes(tools)) == tools
    decreases |tools|
  {
    hide IsTool, IsAssistant;
    if tools != [] {
      var n := |tools| - 1;
      ToolsMakeNoCalls(tools[..n]);
      assert Somes(tools)[..n] == Somes(tools[..n]);
      assert tools == tools[..n] + [tools[n]];
    }
  }

  /** The rows that may join a block make no calls but those the block takes over. */
  lemma {:induction false} JoinedCalls(first: Message, body: seq<Row>)
    requires forall i :: 0 <= i < |body| ==> Joins(first, body[i])
    ensures Calls(body) == BodyCalls(body) && Others(body) == []
    decreases |body|
  {
    if body != [] {
      var init, last := body[..|body| - 1], body[|body| - 1];
      assert Joins(first, last);
      JoinedCalls(first, init);
      assert last.Some? && IsTool(last.value) ==> !IsSingleTool(last.value);
    }
  }

  /** A block makes the calls of its rows, gives back their tool results, and touches no row of another role. */
  lemma BlockKeeps(b: Block)
    requires WellFormed(b)
    ensures Calls(Somes(Emit(b))) == Calls(Rows(b))
    ensures ToolRows(Somes(Emit(b))) == ToolRows(Rows(b))
    ensures Others(Somes(Emit(b))) == Others(Rows(b))
  {
    match b
    case Gap =>
      assert Rows(b)[..0] == [];
      assert Somes(Emit(b)) == [];
    case Kept(m) =>
      assert Somes(Emit(b)) == Rows(b);
    case Merged(prelude, first, body) =>
      MergedKeeps(prelude, first, body);
  }

  lemma SingleRow(row: Row)
    ensures Calls([row]) == RowCalls(row) && Others([row]) == RowOthers(row)
    ensures ToolRows([row]) == if row.Some? && IsTool(row.value) then [row.value] else []
  {
    hide IsTool, IsAssistant;
    assert [row][..0] == [];
  }

  lemma MergedKeeps(prelude: Option<Message>, first: Message, body: seq<Row>)
    requires WellFormed(Merged(prelude, first, body))
    ensures var b := Merged(prelude, first, body);
            && Calls(Somes(Emit(b))) == Calls(Rows(b))
            && ToolRows(Somes(Emit(b))) == ToolRows(Rows(b))
            && Others(Somes(Emit(b))) == Others(Rows(b))
  {
    var m, tools := MergedMessage(prelude, first, body), ToolRows(body);
    assert IsAssistant(m) && !IsTool(m) && m.toolCalls == first.toolCalls + BodyCalls(body);
    JoinedCalls(first, body);
    ToolRowsAreTools(body);
    hide Calls, ToolRows, Others;
    EmittedRows(m, tools);
    SingleRow(Some(first));
    var head := if prelude.Some? then [prelude] else [];
    assert Calls(head) == [] && Others(head) == [] && ToolRows(head) == [] by {
      if prelude.Some? {
        SingleRow(prelude);
      } else {
        NoRows();
      }
    }
    RowsConcat(head, [Some(first)]);
    RowsConcat(head + [Some(first)], body);
  }

  lemma NoRows()
    ensures Calls([]) == [] && Others([]) == [] && ToolRows([]) == []
  {
  }

  lemma EmittedRows(m: Message, tools: seq<Message>)
    requires IsAssistant(m) && !IsTool(m) && AllTools(tools)
    ensures var rows := Somes([m] + tools);
            Calls(rows) == m.toolCalls && Others(rows) == [] && ToolRows(rows) == tools
  {
    hide Calls, ToolRows, Others;
    ToolsMakeNoCalls(tools);
    assert Somes([m] + tools) == [Some(m)] + Somes(tools);
    RowsConcat([Some(m)], Somes(tools));
    SingleRow(Some(m));
  }

  lemma {:induction false} BlocksKeep(blocks: seq<Block>)
    requires AllWellFormed(blocks)
    ensures Calls(Somes(EmitAll(blocks))) == Calls(AllRows(blocks))
    ensures ToolRows(Somes(EmitAll(blocks))) == ToolRows(AllRows(blocks))
    ensures Others(Somes(EmitAll(blocks))) == Others(AllRows(blocks))
    decreases |blocks|
  {
    hide WellFormed, Emit, Rows, Calls, ToolRows, Others;
    if blocks == [] {
      assert Somes([]) == [];
    } else {
      var out, more := Emit(blocks[0]), EmitAll(blocks[1..]);
      BlockKeeps(blocks[0]);
      BlocksKeep(blocks[1..]);
      assert Somes(out + more) == Somes(out) + Somes(more);
      RowsConcat(Somes(out), Somes(more));
      RowsConcat(Rows(blocks[0]), AllRows(blocks[1..]));
    }
  }

  /** Coalescing keeps the sequence of tool calls, the sequence of tool results, and every message of
      another role. */
  lemma CoalesceKeeps(rows: seq<Row>)
    ensures Calls(Somes(Coalesce(rows))) == Calls(rows)
    ensures ToolRows(Somes(Coalesce(rows))) == ToolRows(rows)
    ensures Others(Somes(Coalesce(rows))) == Others(rows)
  {
    BlocksPartition(rows);
    BlocksKeep(Blocks(rows));
  }

  // ----- Tool results stay with their calls -----

  predicate HasCall(calls: seq<ToolCall>, id: string) {
    exists i :: 0 <= i < |calls| && calls[i].id == id
  }

  /** Each tool result's id is among the calls of the nearest message before it that is not a tool result;
      `calls` are those of the message before the first row. */
  predicate Paired(calls: seq<ToolCall>, rows: seq<Row>)
    decreases |rows|
  {
    if rows == [] then true
    else if rows[0].None? then Paired(calls, rows[1..])
    else if IsTool(rows[0].value) then HasCall(calls, rows[0].value.toolCallID) && Paired(calls, rows[1..])
    else Paired(rows[0].value.toolCalls, rows[1..])
  }

  /** The calls that are current after `rows`. */
  function Current(calls: seq<ToolCall>, rows: seq<Row>): seq<ToolCall>
    decreases |rows|
  {
    if rows == [] then calls
    else Current(if rows[0].None? || IsTool(rows[0].value) then calls else rows[0].value.toolCalls, rows[1..])
  }

  lemma {:induction false} PairedConcat(calls: seq<ToolCall>, a: seq<Row>, b: seq<Row>)
    ensures Paired(calls, a + b) <==> Paired(calls, a) && Paired(Current(calls, a), b)
    decreases |a|
  {
    hide IsTool, HasCall;
    if a == [] {
      assert a + b == b;
    } else {
      assert (a + b)[1..] == a[1..] + b && (a + b)[0] == a[0];
      PairedConcat(if a[0].None? || IsTool(a[0].value) then calls else a[0].value.toolCalls, a[1..], b);
    }
  }

  /** More calls in front do no harm. */
  lemma {:induction false} ToolsStayPaired(calls: seq<ToolCall>, tools: seq<Message>)
    requires AllTools(tools)
    ensures Paired(calls, Somes(tools)) <==> forall i :: 0 <= i < |tools| ==> HasCall(calls, tools[i].toolCallID)
    ensures Current(calls, Somes(tools)) == calls
    decreases |tools|
  {
    hide IsTool, HasCall;
    if tools != [] {
      ToolsStayPaired(calls, tools[1..]);
      assert Somes(tools)[1..] == Somes(tools[1..]);
      assert tools == [tools[0]] + tools[1..];
    }
  }

  lemma HasCallMore(calls: seq<ToolCall>, more: seq<ToolCall>, id: string)
    requires HasCall(calls, id) || HasCall(more, id)
    ensures HasCall(calls + more, id)
  {
    if HasCall(calls, id) {
      var i :| 0 <= i < |calls| && calls[i].id == id;
      assert (calls + more)[i].id == id;
    } else {
      var i :| 0 <= i < |more| && more[i].id == id;
      assert (calls + more)[|calls| + i].id == id;
    }
  }

  /** Every tool result of a well-paired body finds its call among those of the whole block. */
  lemma {:induction false} BodyPairs(first: Message, calls: seq<ToolCall>, body: seq<Row>)
    requires forall i :: 0 <= i < |body| ==> Joins(first, body[i])
    requires Paired(calls, body)
    ensures forall i :: 0 <= i < |ToolRows(body)| ==> HasCall(calls + BodyCalls(body), ToolRows(body)[i].toolCallID)
    ensures forall id :: HasCall(Current(calls, body), id) ==> HasCall(calls + BodyCalls(body), id)
    decreases |body|
  {
    hide HasCall, IsTool;
    if body == [] {
      assert calls + BodyCalls(body) == calls;
    } else {
      var init, last := body[..|body| - 1], body[|body| - 1];
      assert body == init + [last];
      PairedConcat(calls, init, [last]);
      BodyPairs(first, calls, init);
      assert Joins(first, last);
      var sofar := calls + BodyCalls(init);
      var more := if last.Some? && IsSingleTool(last.value) then last.value.toolCalls else [];
      Assoc(calls, BodyCalls(init), more);
      CurrentSnoc(calls, init, last);
      forall id | HasCall(sofar, id) || HasCall(more, id) ensures HasCall(sofar + more, id) {
        HasCallMore(sofar, more, id);
      }
    }
  }

  lemma {:induction false} CurrentSnoc(calls: seq<ToolCall>, rows: seq<Row>, last: Row)
    ensures Current(calls, rows + [last]) ==
            if last.None? || IsTool(last.value) then Current(calls, rows) else last.value.toolCalls
    decreases |rows|
  {
    hide IsTool;
    if rows == [] {
      assert rows + [last] == [last] && [last][1..] == [];
    } else {
      assert (rows + [last])[1..] == rows[1..] + [last];
      CurrentSnoc(if rows[0].None? || IsTool(rows[0].value) then calls else rows[0].value.toolCalls, rows[1..], last);
    }
  }

  ghost predicate Covers(calls: seq<ToolCall>, calls': seq<ToolCall>) {
    forall id :: HasCall(calls, id) ==> HasCall(calls', id)
  }

  lemma MergedMessageCalls(prelude: Option<Message>, first: Message, body: seq<Row>)
    ensures var m := MergedMessage(prelude, first, body);
            m.toolCalls == first.toolCalls + BodyCalls(body) && m.role == first.role
  {
  }

  lemma MergedPairs(calls: seq<ToolCall>, calls': seq<ToolCall>, b: Block, more: seq<Row>)
    requires WellFormed(b) && b.Merged? && Paired(calls, Rows(b))
    ensures var m := MergedMessage(b.prelude, b.first, b.body);
            && Covers(Current(calls, Rows(b)), m.toolCalls)
            && (Paired(calls', Somes(Emit(b)) + more) <==> Paired(m.toolCalls, more))
  {
    hide HasCall, MergedMessage, Joins;
    MergedMessageCalls(b.prelude, b.first, b.body);
    var m, tools := MergedMessage(b.prelude, b.first, b.body), ToolRows(b.body);
    var head := if b.prelude.Some? then [b.prelude] else [];
    PairedConcat(calls, head + [Some(b.first)], b.body);
    PairedConcat(calls, head, [Some(b.first)]);
    CurrentSnoc(calls, head, Some(b.first));
    BodyPairs(b.first, b.first.toolCalls, b.body);
    CurrentConcat(calls, head + [Some(b.first)], b.body);
    ToolRowsAreTools(b.body);
    EmittedPairs(m, tools, calls', more);
  }

  lemma EmittedPairs(m: Message, tools: seq<Message>, calls: seq<ToolCall>, more: seq<Row>)
    requires !IsTool(m) && AllTools(tools) && forall i :: 0 <= i < |tools| ==> HasCall(m.toolCalls, tools[i].toolCallID)
    ensures Paired(calls, Somes([m] + tools) + more) <==> Paired(m.toolCalls, more)
  {
    hide HasCall, IsTool;
    ToolsStayPaired(m.toolCalls, tools);
    var rest := Somes(tools) + more;
    assert Somes([m] + tools) + more == [Some(m)] + rest;
    PairedConcat(m.toolCalls, Somes(tools), more);
    assert ([Some(m)] + rest)[1..] == rest;
  }

  lemma {:induction false} CurrentConcat(calls: seq<ToolCall>, a: seq<Row>, b: seq<Row>)
    ensures Current(calls, a + b) == Current(Current(calls, a), b)
    decreases |a|
  {
    hide IsTool;
    if a == [] {
      assert a + b == b;
    } else {
      assert (a + b)[1..] == a[1..] + b && (a + b)[0] == a[0];
      CurrentConcat(if a[0].None? || IsTool(a[0].value) then calls else a[0].value.toolCalls, a[1..], b);
    }
  }

  lemma {:induction false} BlocksPair(calls: seq<ToolCall>, calls': seq<ToolCall>, blocks: seq<Block>)
    requires AllWellFormed(blocks) && Covers(calls, calls') && Paired(calls, AllRows(blocks))
    ensures Paired(calls', Somes(EmitAll(blocks)))
    decreases |blocks|
  {
    hide IsTool, HasCall;
    if blocks != [] {
      var b, rest := blocks[0], blocks[1..];
      var more := Somes(EmitAll(rest));
      assert Somes(EmitAll(blocks)) == Somes(Emit(b)) + more;
      PairedConcat(calls, Rows(b), AllRows(rest));
      match b {
        case Gap =>
          assert Somes(Emit(b)) + more == more;
          BlocksPair(calls, calls', rest);
        case Kept(m) =>
          assert (Somes([m]) + more)[1..] == more;
          BlocksPair(Current(calls, Rows(b)), if IsTool(m) then calls' else m.toolCalls, rest);
        case Merged(prelude, first, body) =>
          MergedPairs(calls, calls', b, more);
          BlocksPair(Current(calls, Rows(b)), MergedMessage(prelude, first, body).toolCalls, rest);
      }
    }
  }

  /** If every tool result stood right behind a message that made its call, it still does. */
  lemma PairingSurvives(rows: seq<Row>)
    requires Paired([], rows)
    ensures Paired([], Somes(Coalesce(rows)))
  {
    BlocksPartition(rows);
    BlocksPair([], [], Blocks(rows));
  }

  // ----- Whose text a merged row has -----

  function FirstNonBlank(a: string, b: string): string {
    if TrimSpace(a) != "" then TrimSpace(a) else TrimSpace(b)
  }

  /** Whose text a merged row has: content, phase and raw output are the tool row's own unless blank, and the text
      in front is then dropped; reasoning and signature come from the text in front unless blank there; the
      reasoning items are the tool row's own unless it has none. All else is the tool row's. */
  lemma PreludeText(dst: Message, prelude: Message)
    ensures var m := MergePrelude(dst, prelude);
            && TrimSpace(Render(m.content)) == FirstNonBlank(Render(dst.content), Render(prelude.content))
            && TrimSpace(m.phase) == FirstNonBlank(dst.phase, prelude.phase)
            && TrimSpace(m.outputRaw) == FirstNonBlank(dst.outputRaw, prelude.outputRaw)
            && TrimSpace(m.reasoning) == FirstNonBlank(prelude.reasoning, dst.reasoning)
            && TrimSpace(m.signature) == FirstNonBlank(prelude.signature, dst.signature)
            && m.reasoningRaws == (if dst.reasoningRaws == [] then prelude.reasoningRaws else dst.reasoningRaws)
            && dst == m.(content := dst.content, phase := dst.phase, outputRaw := dst.outputRaw,
                         reasoning := dst.reasoning, signature := dst.signature, reasoningRaws := dst.reasoningRaws)
  {
    hide TrimSpace, Render;
    TrimSpaceIdempotent(Render(prelude.content));
    TrimSpaceIdempotent(prelude.phase);
    TrimSpaceIdempotent(prelude.outputRaw);
    TrimSpaceIdempotent(prelude.reasoning);
    TrimSpaceIdempotent(prelude.signature);
    RenderPlain(Render(prelude.content));
  }

  lemma RenderPlain(text: string)
    ensures Render(Plain(TrimSpace(text))) == TrimSpace(text)
  {
    TrimSpaceIdempotent(text);
  }
}

/** agent/core_agent/memory_messages.go: which rows are merged, said in their roles, calls and sources. */
module CoalesceTerms {
  import opened GoStrings
  import opened CoalesceSpec

  /** A message of the assistant that calls no tool. */
  predicate Says(row: Row) {
    row.Some? && TrimSpace(row.value.role) == "assistant" && |row.value.toolCalls| == 0
  }

  /** A message of the assistant that calls one tool. */
  predicate CallsOne(row: Row) {
    row.Some? && TrimSpace(row.value.role) == "assistant" && |row.value.toolCalls| == 1
  }

  predicate Answers(row: Row) {
    row.Some? && TrimSpace(row.value.role) == "tool"
  }

  /** Both rows name the same message of the model. */
  predicate OneSource(a: Message, b: Message) {
    TrimSpace(a.source) != "" && TrimSpace(a.source) == TrimSpace(b.source)
  }

  /** A text and a call that belong together: of one source, or neither has one; a synthetic text belongs to nothing. */
  predicate Belongs(text: Message, call: Message) {
    !text.synthetic && TrimSpace(text.source) == TrimSpace(call.source)
  }

  lemma Terms(row: Row)
    ensures row.None? ==> !Says(row) && !CallsOne(row) && !Answers(row)
    ensures row.Some? ==>
              && (Says(row) <==> IsTextOnly(row.value)) && (CallsOne(row) <==> IsSingleTool(row.value))
              && (Answers(row) <==> IsTool(row.value))
  {
    hide TrimSpace;
  }

  lemma BelongsIff(a: Message, b: Message)
    ensures Belongs(a, b) <==> ShouldMerge(a, b)
    ensures OneSource(a, b) <==> ShouldCoalesce(a, b)
  {
    hide TrimSpace;
  }

  /** A row that a merge of `first` takes in. */
  predicate TakenIn(first: Message, row: Row) {
    row.None? || Answers(row) || (CallsOne(row) && OneSource(first, row.value))
  }

  lemma TakenInIff(first: Message, row: Row)
    ensures TakenIn(first, row) <==> Joins(first, row)
  {
    hide Answers, CallsOne, OneSource, IsTool, IsSingleTool, ShouldCoalesce;
    Terms(row);
    if row.Some? {
      BelongsIff(first, row.value);
    }
  }

  // ----- Where the blocks are -----

  /** The number of rows in front of block `j`. */
  function Offset(blocks: seq<Block>, j: nat): nat
    requires j <= |blocks|
  {
    if j == 0 then 0 else Offset(blocks, j - 1) + |Rows(blocks[j - 1])|
  }

  lemma {:induction false} OffsetTail(b: Block, blocks: seq<Block>, j: nat)
    requires j <= |blocks|
    ensures Offset([b] + blocks, j + 1) == |Rows(b)| + Offset(blocks, j)
  {
    hide Rows;
    if j > 0 {
      OffsetTail(b, blocks, j - 1);
    }
  }

  /** A block starts where those in front of it end, and is what the rows from there on begin with. */
  lemma {:induction false} BlockIs(rows: seq<Row>, j: nat)
    requires j < |Blocks(rows)|
    ensures var at := Offset(Blocks(rows), j);
            at < |rows| && Blocks(rows)[j] == FirstBlock(rows[at..]) && at + |Rows(Blocks(rows)[j])| <= |rows|
    decreases |rows|
  {
    hide FirstBlock, Rows;
    FirstBlockRows(rows);
    var b := FirstBlock(rows);
    var rest := rows[|Rows(b)|..];
    assert Blocks(rows) == [b] + Blocks(rest);
    if j == 0 {
      assert rows[0..] == rows;
    } else {
      BlockIs(rest, j - 1);
      OffsetTail(b, Blocks(rest), j - 1);
      var at := Offset(Blocks(rest), j - 1);
      assert rest[at..] == rows[|Rows(b)| + at..];
    }
  }

  /** A row that a merge never takes in starts a block. */
  lemma {:induction false} StartsBlock(rows: seq<Row>, k: nat) returns (j: nat)
    requires k < |rows| && rows[k].Some? && !Answers(rows[k]) && !CallsOne(rows[k])
    ensures j < |Blocks(rows)| && Offset(Blocks(rows), j) == k && Blocks(rows)[j] == FirstBlock(rows[k..])
    decreases |rows|
  {
    hide FirstBlock, Rows, Answers, CallsOne;
    FirstBlockRows(rows);
    var b := FirstBlock(rows);
    var n := |Rows(b)|;
    var rest := rows[n..];
    assert Blocks(rows) == [b] + Blocks(rest);
    if k == 0 {
      j := 0;
      assert rows[0..] == rows;
    } else {
      if k < n {
        InsideIsTaken(rows, k);
      }
      var i := StartsBlock(rest, k - n);
      OffsetTail(b, Blocks(rest), i);
      assert rest[k - n..] == rows[k..];
      j := i + 1;
    }
  }

  /** Inside a block, behind its first row, stand calls and tool results only. */
  lemma InsideIsTaken(rows: seq<Row>, k: nat)
    requires rows != [] && 0 < k < |rows| && k < |Rows(FirstBlock(rows))|
    ensures rows[k].Some? ==> Answers(rows[k]) || CallsOne(rows[k])
  {
    hide BodyLength, ShouldMerge, ShouldCoalesce, Answers, CallsOne, IsTool, IsSingleTool;
    FirstBlockRows(rows);
    var b := FirstBlock(rows);
    Terms(rows[k]);
    var start := if b.prelude.Some? then 2 else 1;
    if k >= start {
      assert rows[start..][..|b.body|][k - start] == rows[k];
      assert Joins(b.first, rows[k]);
    }
  }

  // ----- What is merged -----

  /** A merge begins with a call; the text in front of it, if any, belongs to it; and it takes in tool results, and
      calls of its source. */
  lemma MergeIs(rows: seq<Row>, j: nat)
    requires j < |Blocks(rows)| && Blocks(rows)[j].Merged?
    ensures var b := Blocks(rows)[j];
            && CallsOne(Some(b.first))
            && (b.prelude.Some? ==> Says(b.prelude) && Belongs(b.prelude.value, b.first))
            && forall i :: 0 <= i < |b.body| ==> TakenIn(b.first, b.body[i])
  {
    hide ShouldMerge, ShouldCoalesce, Answers, CallsOne, IsTool, IsSingleTool, TakenIn, Belongs, Joins, IsTextOnly,
      Says;
    BlockIs(rows, j);
    var b := Blocks(rows)[j];
    FirstBlockWellFormed(rows[Offset(Blocks(rows), j)..]);
    Terms(Some(b.first));
    if b.prelude.Some? {
      Terms(b.prelude);
      BelongsIff(b.prelude.value, b.first);
    }
    forall i | 0 <= i < |b.body|
      ensures TakenIn(b.first, b.body[i])
    {
      TakenInIff(b.first, b.body[i]);
    }
  }

  /** A text that belongs to the call directly behind it is merged into it. */
  lemma TextIsMerged(rows: seq<Row>, k: nat) returns (j: nat)
    requires k + 1 < |rows| && Says(rows[k]) && CallsOne(rows[k + 1]) && Belongs(rows[k].value, rows[k + 1].value)
    ensures j < |Blocks(rows)| && Offset(Blocks(rows), j) == k
    ensures var b := Blocks(rows)[j]; b.Merged? && b.prelude == rows[k] && b.first == rows[k + 1].value
  {
    hide ShouldMerge, BodyLength, IsTextOnly, IsSingleTool, Belongs, TrimSpace;
    j := StartsBlock(rows, k);
    var r := rows[k..];
    assert r[0] == rows[k] && r[1] == rows[k + 1];
    Terms(rows[k]);
    Terms(rows[k + 1]);
    BelongsIff(rows[k].value, rows[k + 1].value);
  }

  /** A merge goes on as long as the rows behind it may be taken in. */
  lemma CallIsTaken(rows: seq<Row>, j: nat, q: nat)
    requires j < |Blocks(rows)| && Blocks(rows)[j].Merged?
    requires Offset(Blocks(rows), j) <= q < |rows|
    requires var b, at := Blocks(rows)[j], Offset(Blocks(rows), j);
             forall i :: at + |Rows(b)| <= i <= q ==> TakenIn(b.first, rows[i])
    ensures q < Offset(Blocks(rows), j) + |Rows(Blocks(rows)[j])|
  {
    hide TakenIn, Joins, FirstBlock, Rows, WellFormed;
    BlockIs(rows, j);
    var b, at := Blocks(rows)[j], Offset(Blocks(rows), j);
    FirstBlockWellFormed(rows[at..]);
    var n := |Rows(b)|;
    if q >= at + n {
      assert rows[at..][n] == rows[at + n];
      TakenInIff(b.first, rows[at + n]);
    }
  }

  // ----- What becomes of a block -----

  /** The calls of a list of rows, but for tool results. */
  function CallsIn(rows: seq<Row>): seq<ToolCall> {
    if rows == [] then []
    else CallsIn(rows[..|rows| - 1]) + if CallsOne(rows[|rows| - 1]) then rows[|rows| - 1].value.toolCalls else []
  }

  function AnswersIn(rows: seq<Row>): seq<Message> {
    if rows == [] then []
    else AnswersIn(rows[..|rows| - 1]) + if Answers(rows[|rows| - 1]) then [rows[|rows| - 1].value] else []
  }

  lemma {:induction false} BodyIs(body: seq<Row>)
    ensures BodyCalls(body) == CallsIn(body) && ToolRows(body) == AnswersIn(body)
    decreases |body|
  {
    hide CallsOne, Answers, IsSingleTool, IsTool;
    if body != [] {
      BodyIs(body[..|body| - 1]);
      Terms(body[|body| - 1]);
    }
  }

  /** A row that is not merged stays; of a merge there remain one message, which is its first row with the calls of
      the others behind its own and with the text in front merged in, and then the tool results. */
  lemma BlockBecomes(b: Block)
    ensures b.Gap? ==> Emit(b) == []
    ensures b.Kept? ==> Emit(b) == [b.m]
    ensures b.Merged? ==>
              var m := if b.prelude.Some? then MergePrelude(b.first, b.prelude.value) else b.first;
              Emit(b) == [m.(toolCalls := b.first.toolCalls + CallsIn(b.body))] + AnswersIn(b.body)
  {
    hide TrimSpace, Render, BodyCalls, ToolRows, CallsIn, AnswersIn;
    if b.Merged? {
      BodyIs(b.body);
    }
  }

  lemma {:induction false} EmitsAll(blocks: seq<Block>, j: nat)
    requires j < |blocks|
    ensures forall m :: m in Emit(blocks[j]) ==> m in EmitAll(blocks)
    decreases |blocks|
  {
    hide Emit;
    if j > 0 {
      EmitsAll(blocks[1..], j - 1);
    }
  }

  /** No row is lost but a nil, a call that is merged into another, and a text that belongs to the call behind it. */
  lemma StaysIn(rows: seq<Row>, k: nat)
    requires k < |rows| && rows[k].Some? && !Answers(rows[k]) && !CallsOne(rows[k])
    requires !(Says(rows[k]) && k + 1 < |rows| && CallsOne(rows[k + 1]) && Belongs(rows[k].value, rows[k + 1].value))
    ensures rows[k].value in Coalesce(rows)
  {
    hide ShouldMerge, BodyLength, IsTextOnly, IsSingleTool, Belongs, Says, CallsOne, Answers, Emit;
    var j := StartsBlock(rows, k);
    var r := rows[k..];
    assert r[0] == rows[k] && (k + 1 < |rows| ==> r[1] == rows[k + 1]);
    Terms(rows[k]);
    if k + 1 < |rows| && rows[k + 1].Some? {
      Terms(rows[k + 1]);
      BelongsIff(rows[k].value, rows[k + 1].value);
    }
    BlockBecomes(Blocks(rows)[j]);
    EmitsAll(Blocks(rows), j);
  }

  /** The text in front is taken over exactly when the call's own text is blank; parts that render to text count. */
  lemma ContentIs(first: Message, text: Message)
    ensures var own := match first.content case NoContent => "" case Plain(t) => t case Parts(t) => t;
            var given := match text.content case NoContent => "" case Plain(t) => t case Parts(t) => t;
            MergePrelude(first, text).content ==
            if TrimSpace(own) == "" && TrimSpace(given) != "" then Plain(TrimSpace(given)) else first.content
  {
    hide TrimSpace;
    if first.content.Plain? {
      TrimSpaceIdempotent(first.content.text);
    }
    if text.content.Plain? {
      TrimSpaceIdempotent(text.content.text);
    }
    assert TrimSpace("") == "" by { NothingToTrim(); }
  }

  lemma NothingToTrim()
    ensures TrimSpace("") == ""
  {
  }
}

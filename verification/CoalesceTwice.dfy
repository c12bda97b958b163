/** agent/core_agent/memory_messages.go: when a second pass over the chat rows merges what the first left apart. */
module CoalesceTwice {
  import opened GoStrings
  import opened CoalesceSpec

  /** coalesceAssistantNativeToolMessages: fewer than two rows are handed back as they are. */
  function Pass(rows: seq<Row>): seq<Row> {
    if |rows| < 2 then rows else Somes(Coalesce(rows))
  }

  // ----- Blocks that a second pass joins -----

  /** The block becomes a message with one call, which a later pass takes for a row that was never merged. */
  predicate OneCall(b: Block) {
    b.Merged? && BodyCalls(b.body) == []
  }

  /** What stands next to each other in the output, and would have been merged had it stood so in the input: a text
      row in front of a one-call block of its round, or two one-call blocks of one round. */
  predicate MergesAgain(b: Block, next: Block) {
    OneCall(next) &&
    match b
    case Gap => false
    case Kept(m) => IsTextOnly(m) && ShouldMerge(m, next.first)
    case Merged(_, first, _) => OneCall(b) && ShouldCoalesce(first, next.first)
  }

  function NoGaps(blocks: seq<Block>): seq<Block> {
    if blocks == [] then [] else (if blocks[0].Gap? then [] else [blocks[0]]) + NoGaps(blocks[1..])
  }

  /** No two neighbours merge again. */
  predicate Settled(blocks: seq<Block>) {
    forall i :: 0 <= i < |blocks| - 1 ==> !MergesAgain(blocks[i], blocks[i + 1])
  }

  // ----- A merge shortens the list -----

  lemma {:induction false} BodyShorter(first: Message, body: seq<Row>)
    requires forall i :: 0 <= i < |body| ==> Joins(first, body[i])
    ensures |ToolRows(body)| + |BodyCalls(body)| <= |body|
    decreases |body|
  {
    hide TrimSpace, ShouldCoalesce;
    if body != [] {
      BodyShorter(first, body[..|body| - 1]);
    }
  }

  lemma EmitShorter(b: Block)
    requires WellFormed(b)
    ensures |Emit(b)| <= |Rows(b)|
    ensures b.Merged? && (b.prelude.Some? || !OneCall(b)) ==> |Emit(b)| < |Rows(b)|
  {
    hide Joins, MergedMessage, IsSingleTool, IsTextOnly, ShouldMerge, IsTool;
    if b.Merged? {
      BodyShorter(b.first, b.body);
    }
  }

  lemma CoalesceFirst(rows: seq<Row>)
    requires rows != []
    ensures var b := FirstBlock(rows);
            && 0 < |Rows(b)| <= |rows| && WellFormed(b)
            && Coalesce(rows) == Emit(b) + Coalesce(rows[|Rows(b)|..])
  {
    hide FirstBlock, Emit, Rows, WellFormed;
    FirstBlockWellFormed(rows);
    var b := FirstBlock(rows);
    var rest := rows[|Rows(b)|..];
    assert Blocks(rows) == [b] + Blocks(rest);
    assert Blocks(rows)[1..] == Blocks(rest);
  }

  lemma {:induction false} NeverLonger(rows: seq<Row>)
    ensures |Coalesce(rows)| <= |rows|
    decreases |rows|
  {
    hide FirstBlock, Emit, Rows, WellFormed;
    if rows != [] {
      CoalesceFirst(rows);
      EmitShorter(FirstBlock(rows));
      NeverLonger(rows[|Rows(FirstBlock(rows))|..]);
    }
  }

  /** When the first block merges two rows, the result is shorter. */
  lemma ShorterIfMerged(rows: seq<Row>)
    requires rows != []
    requires var b := FirstBlock(rows); b.Merged? && (b.prelude.Some? || !OneCall(b))
    ensures |Coalesce(rows)| < |rows|
  {
    hide FirstBlock, Emit, Rows, WellFormed, Coalesce;
    CoalesceFirst(rows);
    EmitShorter(FirstBlock(rows));
    NeverLonger(rows[|Rows(FirstBlock(rows))|..]);
  }

  // ----- The second pass, message by message -----

  /** A pass leaves the messages as they are. */
  predicate Fixed(ms: seq<Message>) {
    Coalesce(Somes(ms)) == ms
  }

  lemma KindsExclude(m: Message)
    ensures IsTool(m) ==> !IsTextOnly(m) && !IsSingleTool(m)
    ensures IsSingleTool(m) ==> !IsTextOnly(m)
  {
  }

  /** A row that calls no tool, or several, is left alone unless it is the text in front of a one-call row. */
  lemma KeptAgain(m: Message, rest: seq<Message>)
    requires !IsSingleTool(m)
    ensures Fixed([m] + rest) <==>
              !(IsTextOnly(m) && rest != [] && IsSingleTool(rest[0]) && ShouldMerge(m, rest[0])) && Fixed(rest)
  {
    hide IsTextOnly, IsSingleTool, ShouldMerge, Coalesce, BodyLength;
    var rows := Somes([m] + rest);
    assert rows[1..] == Somes(rest) && rows[0] == Some(m);
    if StartsWithPrelude(rows) {
      ShorterIfMerged(rows);
    } else {
      assert FirstBlock(rows) == Kept(m);
      CoalesceFirst(rows);
      assert Coalesce(rows) == [m] + Coalesce(Somes(rest));
      assert Fixed(rest) <==> Coalesce(Somes(rest)) == rest;
      SameTail(m, Coalesce(Somes(rest)), rest);
    }
  }

  lemma SameTail<T>(x: T, a: seq<T>, b: seq<T>)
    ensures [x] + a == [x] + b <==> a == b
  {
    assert ([x] + a)[1..] == a && ([x] + b)[1..] == b;
  }

  lemma {:induction false} ToolsAgain(tools: seq<Message>, rest: seq<Message>)
    requires AllTools(tools)
    ensures Fixed(tools + rest) <==> Fixed(rest)
    decreases |tools|
  {
    hide IsTool, Fixed;
    if tools == [] {
      assert tools + rest == rest;
    } else {
      KindsExclude(tools[0]);
      assert tools + rest == [tools[0]] + (tools[1..] + rest);
      KeptAgain(tools[0], tools[1..] + rest);
      ToolsAgain(tools[1..], rest);
    }
  }

  lemma {:induction false} ToolsJoin(first: Message, tools: seq<Message>, rows: seq<Row>)
    requires AllTools(tools)
    ensures BodyLength(first, Somes(tools) + rows) == |tools| + BodyLength(first, rows)
    decreases |tools|
  {
    hide IsTool;
    var all := Somes(tools) + rows;
    if tools == [] {
      assert all == rows;
    } else {
      assert all[0] == Some(tools[0]) && all[1..] == Somes(tools[1..]) + rows;
      ToolsJoin(first, tools[1..], rows);
    }
  }

  lemma {:induction false} ToolsAlone(tools: seq<Message>)
    requires AllTools(tools)
    ensures BodyCalls(Somes(tools)) == [] && ToolRows(Somes(tools)) == tools
    decreases |tools|
  {
    hide IsTool, IsSingleTool;
    if tools != [] {
      var n := |tools| - 1;
      KindsExclude(tools[n]);
      assert Somes(tools)[..n] == Somes(tools[..n]);
      ToolsAlone(tools[..n]);
    }
  }

  /** A tool-calling row in the body leaves its call. */
  lemma {:induction false} CallsFrom(body: seq<Row>, i: nat)
    requires i < |body| && body[i].Some? && IsSingleTool(body[i].value)
    ensures BodyCalls(body) != []
    decreases |body|
  {
    var n := |body| - 1;
    if i < n {
      CallsFrom(body[..n], i);
    }
  }

  /** A one-call row with its results is left alone unless the next row is a call of its round. */
  lemma OneCallAgain(m: Message, tools: seq<Message>, rest: seq<Message>)
    requires IsSingleTool(m) && AllTools(tools) && (rest != [] ==> !IsTool(rest[0]))
    ensures Fixed([m] + tools + rest) <==>
              !(rest != [] && IsSingleTool(rest[0]) && ShouldCoalesce(m, rest[0])) && Fixed(rest)
  {
    hide IsSingleTool, ShouldCoalesce, Coalesce, IsTool, BodyLength, ToolRows, BodyCalls, FirstBlock, Emit;
    var rows := Somes([m] + tools + rest);
    var body := Somes(tools) + Somes(rest);
    assert rows[0] == Some(m) && rows[1..] == body;
    ToolsJoin(m, tools, Somes(rest));
    var n := BodyLength(m, body);
    CallBlock(rows);
    JoinsNext(m, rest);
    if n > |tools| {
      assert body[..n][|tools|] == Some(rest[0]);
      CallsFrom(body[..n], |tools|);
      ShorterIfMerged(rows);
    } else {
      assert body[..n] == Somes(tools);
      AloneAgain(m, tools, rest);
    }
  }

  lemma AloneAgain(m: Message, tools: seq<Message>, rest: seq<Message>)
    requires AllTools(tools) && FirstBlock(Somes([m] + tools + rest)) == Merged(None, m, Somes(tools))
    ensures Fixed([m] + tools + rest) <==> Fixed(rest)
  {
    hide IsSingleTool, ShouldCoalesce, Coalesce, IsTool, BodyLength, ToolRows, BodyCalls, FirstBlock, Emit, Rows;
    var rows := Somes([m] + tools + rest);
    ToolsAlone(tools);
    OneCallEmits(m, tools);
    CoalesceFirst(rows);
    assert rows[1 + |tools|..] == Somes(rest);
    SameRest([m] + tools, Coalesce(Somes(rest)), rest);
  }

  /** A tool-calling row in front starts a merge of its own. */
  lemma CallBlock(rows: seq<Row>)
    requires rows != [] && rows[0].Some? && IsSingleTool(rows[0].value)
    ensures FirstBlock(rows) == Merged(None, rows[0].value, rows[1..][..BodyLength(rows[0].value, rows[1..])])
  {
    hide IsSingleTool, IsTextOnly, ShouldMerge, BodyLength;
    KindsExclude(rows[0].value);
  }

  lemma OneCallEmits(m: Message, tools: seq<Message>)
    requires BodyCalls(Somes(tools)) == [] && ToolRows(Somes(tools)) == tools
    ensures Emit(Merged(None, m, Somes(tools))) == [m] + tools
    ensures Rows(Merged(None, m, Somes(tools))) == [Some(m)] + Somes(tools)
  {
    hide BodyCalls, ToolRows;
    assert m.toolCalls + [] == m.toolCalls;
    assert [] + [Some(m)] + Somes(tools) == [Some(m)] + Somes(tools);
  }

  lemma SameRest<T>(x: seq<T>, a: seq<T>, b: seq<T>)
    ensures x + a == x + b <==> a == b
  {
    assert (x + a)[|x|..] == a && (x + b)[|x|..] == b;
  }

  lemma JoinsNext(m: Message, rest: seq<Message>)
    requires rest != [] ==> !IsTool(rest[0])
    ensures BodyLength(m, Somes(rest)) > 0 <==> rest != [] && IsSingleTool(rest[0]) && ShouldCoalesce(m, rest[0])
  {
    hide IsTool, IsSingleTool, ShouldCoalesce;
  }

  // ----- ... and block by block -----

  /** The first message of a block's output. */
  function Head(b: Block): Message
    requires !b.Gap?
  {
    if b.Kept? then b.m else MergedMessage(b.prelude, b.first, b.body)
  }

  lemma {:induction false} FirstOutput(blocks: seq<Block>)
    ensures var bs := NoGaps(blocks);
            if bs == [] then EmitAll(blocks) == []
            else !bs[0].Gap? && EmitAll(blocks) != [] && EmitAll(blocks)[0] == Head(bs[0])
    decreases |blocks|
  {
    hide MergedMessage, ToolRows;
    if blocks != [] {
      FirstOutput(blocks[1..]);
    }
  }

  lemma {:induction false} NoGapsWellFormed(blocks: seq<Block>)
    requires AllWellFormed(blocks) && NoGaps(blocks) != []
    ensures WellFormed(NoGaps(blocks)[0])
    decreases |blocks|
  {
    hide WellFormed, Ends;
    if blocks[0].Gap? {
      NoGapsWellFormed(blocks[1..]);
    }
  }

  /** What later tests see of a merged message: its round, and whether it has one call. */
  lemma HeadKind(b: Block)
    requires !b.Gap? && WellFormed(b)
    ensures IsSingleTool(Head(b)) <==> OneCall(b)
    ensures b.Merged? ==> !IsTool(Head(b)) && !IsTextOnly(Head(b)) && Head(b).source == b.first.source
  {
    hide BodyCalls, TrimSpace, Joins, ShouldMerge;
  }

  lemma SameRoundTests(a: Message, b: Message, c: Message)
    requires b.source == c.source
    ensures ShouldMerge(a, b) == ShouldMerge(a, c)
    ensures ShouldCoalesce(a, b) == ShouldCoalesce(a, c) && ShouldCoalesce(b, a) == ShouldCoalesce(c, a)
  {
    hide TrimSpace;
  }

  lemma {:induction false} FixedIff(blocks: seq<Block>)
    requires AllWellFormed(blocks)
    ensures Fixed(EmitAll(blocks)) <==> Settled(NoGaps(blocks))
    decreases |blocks|
  {
    hide Fixed, WellFormed, Ends, ShouldMerge, ShouldCoalesce, IsTextOnly, IsSingleTool, Emit;
    if blocks == [] {
      NothingFixed();
    } else {
      FixedIff(blocks[1..]);
      SettledStep(blocks);
      match blocks[0] {
        case Gap =>
          assert Emit(blocks[0]) + EmitAll(blocks[1..]) == EmitAll(blocks[1..]) by { GapEmits(EmitAll(blocks[1..])); }
        case Kept(m) => KeptFixed(blocks);
        case Merged(_, _, _) => MergedFixed(blocks);
      }
    }
  }

  lemma NothingFixed()
    ensures Fixed([])
  {
  }

  lemma GapEmits(ms: seq<Message>)
    ensures Emit(Gap) + ms == ms
  {
  }

  /** The neighbours of a block list are those of its tail, and the first two. */
  lemma SettledStep(blocks: seq<Block>)
    requires blocks != []
    ensures var bs := NoGaps(blocks[1..]);
            Settled(NoGaps(blocks)) <==> !(!blocks[0].Gap? && bs != [] && MergesAgain(blocks[0], bs[0])) && Settled(bs)
  {
    hide MergesAgain;
    var b, bs := blocks[0], NoGaps(blocks[1..]);
    if b.Gap? {
      assert [] + bs == bs;
    } else {
      SettledCons(b, bs);
    }
  }

  lemma SettledCons(b: Block, bs: seq<Block>)
    ensures Settled([b] + bs) <==> !(bs != [] && MergesAgain(b, bs[0])) && Settled(bs)
  {
    hide MergesAgain;
    var all := [b] + bs;
    assert forall i :: 0 <= i < |bs| ==> all[i + 1] == bs[i];
    if Settled(all) {
      assert bs != [] ==> !MergesAgain(all[0], all[1]);
      forall i | 0 <= i < |bs| - 1
        ensures !MergesAgain(bs[i], bs[i + 1])
      {
        assert !MergesAgain(all[i + 1], all[i + 1 + 1]);
      }
    }
  }

  lemma KeptFixed(blocks: seq<Block>)
    requires AllWellFormed(blocks) && blocks != [] && blocks[0].Kept?
    ensures var bs, rest := NoGaps(blocks[1..]), EmitAll(blocks[1..]);
            Fixed(EmitAll(blocks)) <==> !(bs != [] && MergesAgain(blocks[0], bs[0])) && Fixed(rest)
  {
    hide Fixed, ShouldMerge, ShouldCoalesce, IsTextOnly, IsSingleTool, MergedMessage, ToolRows, Joins, IsTool;
    var m, bs, rest := blocks[0].m, NoGaps(blocks[1..]), EmitAll(blocks[1..]);
    FirstOutput(blocks[1..]);
    KeptAgain(m, rest);
    if bs != [] {
      NoGapsWellFormed(blocks[1..]);
      HeadKind(bs[0]);
      if bs[0].Merged? {
        SameRoundTests(m, rest[0], bs[0].first);
      }
    }
  }

  lemma MergedFixed(blocks: seq<Block>)
    requires AllWellFormed(blocks) && blocks != [] && blocks[0].Merged?
    ensures var bs, rest := NoGaps(blocks[1..]), EmitAll(blocks[1..]);
            Fixed(EmitAll(blocks)) <==> !(bs != [] && MergesAgain(blocks[0], bs[0])) && Fixed(rest)
  {
    hide Fixed, ShouldMerge, ShouldCoalesce, IsTextOnly, IsSingleTool, MergedMessage, ToolRows, IsTool, BodyCalls,
      Joins;
    var b, bs, rest := blocks[0], NoGaps(blocks[1..]), EmitAll(blocks[1..]);
    var m, tools := Head(b), ToolRows(b.body);
    ToolRowsAreTools(b.body);
    HeadKind(b);
    FirstOutput(blocks[1..]);
    assert EmitAll(blocks) == [m] + tools + rest;
    if !OneCall(b) {
      Assoc([m], tools, rest);
      KeptAgain(m, tools + rest);
      ToolsAgain(tools, rest);
    } else {
      NextIsNoTool(blocks);
      OneCallAgain(m, tools, rest);
      if bs != [] {
        NoGapsWellFormed(blocks[1..]);
        HeadKind(bs[0]);
        if bs[0].Merged? {
          SameRoundTests(m, rest[0], bs[0].first);
          SameRoundTests(bs[0].first, m, b.first);
        }
      }
    }
  }

  /** Behind a merge comes no tool row: it would have joined. */
  lemma NextIsNoTool(blocks: seq<Block>)
    requires AllWellFormed(blocks) && blocks != [] && blocks[0].Merged?
    ensures var rest := EmitAll(blocks[1..]); rest != [] ==> !IsTool(rest[0])
  {
    hide MergedMessage, ToolRows, IsTool, BodyCalls, ShouldCoalesce, IsSingleTool;
    if blocks[1..] != [] {
      var next := blocks[1];
      assert blocks[1..][0] == next;
      FirstOutput(blocks[1..]);
      if next.Merged? {
        HeadKind(next);
      }
    }
  }

  lemma OneRow(m: Message)
    ensures Fixed([m])
  {
    hide Fixed, IsSingleTool, IsTool;
    NothingFixed();
    if IsSingleTool(m) {
      OneCallAgain(m, [], []);
      assert [m] + [] + [] == [m];
    } else {
      KeptAgain(m, []);
      assert [m] + [] == [m];
    }
  }

  lemma SomesAreSame(a: seq<Message>, b: seq<Message>)
    ensures Somes(a) == Somes(b) <==> a == b
  {
    if Somes(a) == Somes(b) {
      forall i | 0 <= i < |a|
        ensures a[i] == b[i]
      {
        assert Somes(a)[i] == Somes(b)[i];
      }
    }
  }

  /** A second pass changes nothing exactly when, gaps aside, no two neighbouring blocks of the input merge again. */
  lemma SecondPassIff(rows: seq<Row>)
    ensures Pass(Pass(rows)) == Pass(rows) <==> |rows| < 2 || Settled(NoGaps(Blocks(rows)))
  {
    hide Settled, NoGaps, Blocks, EmitAll;
    if |rows| >= 2 {
      BlocksPartition(rows);
      FixedIff(Blocks(rows));
      var once := Coalesce(rows);
      SomesAreSame(Coalesce(Somes(once)), once);
      if once == [] {
        NothingFixed();
      } else if |once| == 1 {
        assert once == [once[0]];
        OneRow(once[0]);
      }
    }
  }

  // ----- Inputs of each kind that a second pass changes -----

  lemma TwoBlocks(rows: seq<Row>, b: Block, next: Block)
    requires |rows| >= 2 && NoGaps(Blocks(rows)) == [b, next] && MergesAgain(b, next)
    ensures Pass(Pass(rows)) != Pass(rows)
  {
    hide MergesAgain, NoGaps, Blocks, Pass;
    assert !Settled([b, next]) by {
      assert MergesAgain([b, next][0], [b, next][1]);
    }
    SecondPassIff(rows);
  }

  /** The block of the last rows, when they are one block. */
  lemma LastBlock(rows: seq<Row>)
    requires rows != [] && Rows(FirstBlock(rows)) == rows
    ensures Blocks(rows) == [FirstBlock(rows)]
  {
    hide FirstBlock, Rows;
    assert rows[|rows|..] == [];
    assert Blocks([]) == [];
  }

  /** Two texts in front of a tool row: the first pass takes one, the second the other. */
  lemma TextsInFront(a: Message, b: Message, tool: Message)
    requires IsTextOnly(a) && IsTextOnly(b) && IsSingleTool(tool) && ShouldMerge(a, tool) && ShouldMerge(b, tool)
    ensures var rows := [Some(a), Some(b), Some(tool)]; Pass(Pass(rows)) != Pass(rows)
  {
    hide ShouldMerge, IsTextOnly, IsSingleTool, Pass;
    KindsExclude(tool);
    TextIsNoCall(b);
    TextIsNoCall(a);
    var rows := [Some(a), Some(b), Some(tool)];
    var rest := rows[1..];
    assert rest == [Some(b), Some(tool)] && rest[2..] == [];
    assert FirstBlock(rows) == Kept(a);
    assert FirstBlock(rest) == Merged(Some(b), tool, []);
    LastBlock(rest);
    assert Blocks(rows) == [Kept(a)] + Blocks(rest);
    TwoLeft(Kept(a), Merged(Some(b), tool, []));
    TwoBlocks(rows, Kept(a), Merged(Some(b), tool, []));
  }

  /** Two calls of one round around a text of that round: the text stops the first pass only. */
  lemma CallsAroundText(one: Message, text: Message, two: Message)
    requires IsSingleTool(one) && IsTextOnly(text) && IsSingleTool(two) && ShouldMerge(text, two)
    requires ShouldCoalesce(one, two)
    ensures var rows := [Some(one), Some(text), Some(two)]; Pass(Pass(rows)) != Pass(rows)
  {
    hide ShouldMerge, ShouldCoalesce, IsTextOnly, IsSingleTool, IsTool, Pass;
    KindsExclude(one);
    KindsExclude(text);
    TextIsNoCall(text);
    var rows := [Some(one), Some(text), Some(two)];
    var rest := rows[1..];
    assert rest == [Some(text), Some(two)] && rest[2..] == [];
    assert BodyLength(one, rest) == 0;
    assert rest[..0] == [];
    assert FirstBlock(rows) == Merged(None, one, []);
    assert FirstBlock(rest) == Merged(Some(text), two, []);
    LastBlock(rest);
    assert Blocks(rows) == [Merged(None, one, [])] + Blocks(rest);
    TwoLeft(Merged(None, one, []), Merged(Some(text), two, []));
    TwoBlocks(rows, Merged(None, one, []), Merged(Some(text), two, []));
  }

  /** A nil between a text and its call: it stops the first pass, and is dropped by it. */
  lemma NilBetween(text: Message, tool: Message)
    requires IsTextOnly(text) && IsSingleTool(tool) && ShouldMerge(text, tool)
    ensures var rows := [Some(text), None, Some(tool)]; Pass(Pass(rows)) != Pass(rows)
  {
    hide ShouldMerge, IsTextOnly, IsSingleTool, Pass;
    TextIsNoCall(text);
    KindsExclude(tool);
    var rows := [Some(text), None, Some(tool)];
    var rest, last := [None, Some(tool)], [Some(tool)];
    assert rows[1..] == rest && rest[1..] == last && last[1..] == [];
    assert FirstBlock(rows) == Kept(text) && FirstBlock(rest) == Gap && FirstBlock(last) == Merged(None, tool, []);
    LastBlock(last);
    assert Blocks(rest) == [Gap] + Blocks(last);
    assert Blocks(rows) == [Kept(text)] + Blocks(rest);
    assert ([Gap] + [Merged(None, tool, [])])[1..] == [Merged(None, tool, [])];
    OneLeft(Merged(None, tool, []));
    TwoBlocks(rows, Kept(text), Merged(None, tool, []));
  }

  lemma TextIsNoCall(m: Message)
    ensures IsTextOnly(m) ==> !IsSingleTool(m) && !IsTool(m)
  {
  }

  lemma OneLeft(b: Block)
    ensures NoGaps([b]) == if b.Gap? then [] else [b]
  {
  }

  lemma TwoLeft(b: Block, next: Block)
    requires !b.Gap? && !next.Gap?
    ensures NoGaps([b] + [next]) == [b, next]
  {
    assert ([b] + [next])[1..] == [next];
    OneLeft(next);
  }
}
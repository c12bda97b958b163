/** agent/memory/memory.go: the numbered transcript of the memory that the prompt shows, and the way back from
    the numbers in it to the entries. */
module Transcript {
  import opened GoStrings

  /** The fields of a memory entry that the transcript reads. */
  datatype Entry = Entry(
    sourceMessageID: string,
    sequence: int,
    content: string,
    rawOutput: string,
    callToolInfo: string,
    toolCallID: string,
    toolName: string,
    toolStatus: string,
    toolRequestRawJSON: string,
    toolInputJSON: string,
    toolOutput: string,
    toolError: string,
    toolTitle: string)

  /** An entry of the list; the source's slices may hold nil pointers. */
  type Row = Option<Entry>

  predicate HasToolCall(e: Entry) {
    || TrimSpace(e.toolCallID) != "" || TrimSpace(e.toolName) != "" || TrimSpace(e.toolStatus) != ""
    || TrimSpace(e.toolRequestRawJSON) != "" || TrimSpace(e.toolInputJSON) != ""
    || TrimSpace(e.toolOutput) != "" || TrimSpace(e.toolError) != ""
  }

  /** The first value that is not blank, trimmed. */
  function FirstNonEmptyTrimmed(values: seq<string>): string {
    if values == [] then ""
    else if TrimSpace(values[0]) != "" then TrimSpace(values[0])
    else FirstNonEmptyTrimmed(values[1..])
  }

  function RenderContent(e: Entry): string {
    FirstNonEmptyTrimmed([e.toolOutput, e.toolError, e.rawOutput, e.content, e.toolRequestRawJSON, e.toolInputJSON,
                          e.callToolInfo])
  }

  function ToLower(s: string): string {
    seq(|s|, i requires 0 <= i < |s| => if 'A' <= s[i] <= 'Z' then s[i] - 'A' + 'a' else s[i])
  }

  predicate IsEmptySuccess(status: string) {
    var s := ToLower(TrimSpace(status));
    s == "completed" || s == "success" || s == "done"
  }

  const EMPTY_TOOL_RESULT_MESSAGE := "(command succeeded with no output)"

  function RenderToolResult(e: Entry): string {
    var result := FirstNonEmptyTrimmed([e.toolOutput, e.toolError, e.callToolInfo, e.toolTitle]);
    var status := TrimSpace(e.toolStatus);
    if result != "" then result
    else if status != "" && !IsEmptySuccess(status) then status
    else if IsEmptySuccess(status) then EMPTY_TOOL_RESULT_MESSAGE
    else ""
  }

  /** Which model message an entry comes from. */
  datatype Key = OfMessage(id: string) | OfSequence(n: int) | OfEntry(index: nat)

  function SourceKey(e: Entry, index: nat): Key {
    if TrimSpace(e.sourceMessageID) != "" then OfMessage(TrimSpace(e.sourceMessageID))
    else if e.sequence > 0 then OfSequence(e.sequence)
    else OfEntry(index)
  }

  /** What a line shows: the model's raw output, the request of a tool call, its result, or any other text. */
  datatype Kind = Raw | Request | ToolResult | Text

  datatype Item = Item(msgID: nat, entryIndex: nat, kind: Kind, content: string)

  // ----- The transcript, on values -----

  /** The line for a text; none for a blank one. */
  function Line(kind: Kind, content: string): seq<(Kind, string)> {
    if TrimSpace(content) == "" then [] else [(kind, TrimSpace(content))]
  }

  function Lines(e: Entry, suppressed: bool): seq<(Kind, string)> {
    Line(Raw, e.rawOutput) +
    if HasToolCall(e) then
      (if TrimSpace(e.rawOutput) == "" && !suppressed
       then Line(Request, FirstNonEmptyTrimmed([e.toolRequestRawJSON, e.content])) else [])
      + Line(ToolResult, RenderToolResult(e))
    else if TrimSpace(e.rawOutput) == "" then Line(Text, RenderContent(e)) else []
  }

  /** The messages whose tool requests are suppressed behind the first `n` entries. */
  function Suppress(rows: seq<Row>, n: nat): set<Key>
    requires n <= |rows|
  {
    if n == 0 then {}
    else
      var before := Suppress(rows, n - 1);
      if rows[n - 1].None? then before
      else
        var e := rows[n - 1].value;
        var key := SourceKey(e, n - 1);
        if !HasToolCall(e) then before - {key} else if TrimSpace(e.rawOutput) != "" then before + {key} else before
  }

  function Number(lines: seq<(Kind, string)>, from: nat, index: nat): (items: seq<Item>)
    ensures |items| == |lines|
    ensures forall k :: 0 <= k < |items| ==> items[k] == Item(from + k + 1, index, lines[k].0, lines[k].1)
  {
    seq(|lines|, k requires 0 <= k < |lines| => Item(from + k + 1, index, lines[k].0, lines[k].1))
  }

  /** The lines of one entry of the list. */
  function RowLines(rows: seq<Row>, i: nat): seq<(Kind, string)>
    requires i < |rows|
  {
    if rows[i].None? then [] else Lines(rows[i].value, SourceKey(rows[i].value, i) in Suppress(rows, i))
  }

  function Items(rows: seq<Row>, n: nat): seq<Item>
    requires n <= |rows|
  {
    if n == 0 then [] else var before := Items(rows, n - 1); before + Number(RowLines(rows, n - 1), |before|, n - 1)
  }

  // ----- The loop -----

  /** `items` is `before` with the lines of entry `index` behind it, numbered on. */
  ghost predicate Grown(before: seq<Item>, index: nat, lines: seq<(Kind, string)>, items: seq<Item>, nextMsgID: nat) {
    items == before + Number(lines, |before|, index) && nextMsgID == |items|
  }

  method AppendTranscriptLine(items: seq<Item>, nextMsgID: nat, index: nat, kind: Kind, content: string,
                              ghost before: seq<Item>, ghost lines: seq<(Kind, string)>)
    returns (items': seq<Item>, nextMsgID': nat)
    requires Grown(before, index, lines, items, nextMsgID)
    ensures Grown(before, index, lines + Line(kind, content), items', nextMsgID')
  {
    hide TrimSpace;
    items', nextMsgID' := items, nextMsgID;
    var trimmed := TrimSpace(content);
    if trimmed == "" {
      assert lines + [] == lines;
      return;
    }
    nextMsgID' := nextMsgID + 1;
    items' := items + [Item(nextMsgID', index, kind, trimmed)];
  }

  /** Trimming twice shows the same line. */
  lemma TrimmedLine(kind: Kind, s: string)
    ensures Line(kind, TrimSpace(s)) == Line(kind, s) && (TrimSpace(s) == "" ==> Line(kind, s) == [])
  {
    TrimSpaceIdempotent(s);
  }

  /** One round of the loop. */
  method EntryLines(items: seq<Item>, nextMsgID: nat, suppress: set<Key>, e: Entry, index: nat)
    returns (items': seq<Item>, nextMsgID': nat, suppress': set<Key>)
    requires nextMsgID == |items|
    ensures Grown(items, index, Lines(e, SourceKey(e, index) in suppress), items', nextMsgID')
    ensures suppress' == if !HasToolCall(e) then suppress - {SourceKey(e, index)}
                         else if TrimSpace(e.rawOutput) != "" then suppress + {SourceKey(e, index)} else suppress
  {
    hide TrimSpace, HasToolCall, RenderToolResult, RenderContent, FirstNonEmptyTrimmed, SourceKey, Line, Grown;
    items', nextMsgID', suppress' := items, nextMsgID, suppress;
    ghost var lines: seq<(Kind, string)> := [];
    NothingGrown(items, index);
    var sourceKey := SourceKey(e, index);
    var rawOutput := TrimSpace(e.rawOutput);
    TrimmedLine(Raw, e.rawOutput);
    if rawOutput != "" {
      items', nextMsgID' := AppendTranscriptLine(items', nextMsgID', index, Raw, rawOutput, items, lines);
      lines := lines + Line(Raw, rawOutput);
      if HasToolCall(e) {
        suppress' := suppress' + {sourceKey};
      } else {
        suppress' := suppress' - {sourceKey};
      }
    }
    assert lines == Line(Raw, e.rawOutput);
    if HasToolCall(e) {
      ghost var requested := [];
      if rawOutput == "" && sourceKey !in suppress' {
        var request := FirstNonEmptyTrimmed([e.toolRequestRawJSON, e.content]);
        items', nextMsgID' := AppendTranscriptLine(items', nextMsgID', index, Request, request, items, lines);
        requested := Line(Request, request);
      }
      assert lines + [] == lines;
      Assoc(lines, requested, Line(ToolResult, RenderToolResult(e)));
      items', nextMsgID' := AppendTranscriptLine(items', nextMsgID', index, ToolResult, RenderToolResult(e), items,
                                                 lines + requested);
      return;
    }
    suppress' := suppress' - {sourceKey};
    if rawOutput != "" {
      assert lines + [] == lines;
      return;
    }
    TrimmedLine(Text, RenderContent(e));
    items', nextMsgID' := AppendTranscriptLine(items', nextMsgID', index, Text, TrimSpace(RenderContent(e)), items,
                                               lines);
  }

  lemma NothingGrown(items: seq<Item>, index: nat)
    ensures Grown(items, index, [], items, |items|)
  {
  }

  method MemoryTranscriptItemsFromEntries(rows: seq<Row>) returns (items: seq<Item>)
    ensures items == Items(rows, |rows|)
  {
    hide TrimSpace, HasToolCall, Lines, SourceKey;
    items := [];
    var nextMsgID, suppress: set<Key> := 0, {};
    var index := 0;
    while index < |rows|
      invariant 0 <= index <= |rows| && items == Items(rows, index) && nextMsgID == |items|
      invariant suppress == Suppress(rows, index)
    {
      if rows[index].Some? {
        items, nextMsgID, suppress := EntryLines(items, nextMsgID, suppress, rows[index].value, index);
      } else {
        assert items + [] == items;
      }
      index := index + 1;
    }
  }

  // ----- What the numbers are -----

  /** MsgIDs are 1, 2, ... without a gap, entry indexes never fall, and no entry has more than two lines. */
  predicate Numbered(items: seq<Item>, n: nat) {
    && (forall k :: 0 <= k < |items| ==> items[k].msgID == k + 1 && items[k].entryIndex < n && items[k].content != "")
    && (forall j, k :: 0 <= j < k < |items| ==> items[j].entryIndex <= items[k].entryIndex)
    && (forall j, k :: 0 <= j && j + 2 <= k < |items| ==> items[j].entryIndex < items[k].entryIndex)
  }

  lemma {:induction false} Numbering(rows: seq<Row>, n: nat)
    requires n <= |rows|
    ensures Numbered(Items(rows, n), n)
    decreases n
  {
    hide TrimSpace, RowLines, Numbered;
    if n == 0 {
      NothingNumbered();
    } else {
      Numbering(rows, n - 1);
      AtMostTwoInRow(rows, n - 1);
      NumberedMore(Items(rows, n - 1), RowLines(rows, n - 1), n - 1);
    }
  }

  lemma NumberedMore(items: seq<Item>, lines: seq<(Kind, string)>, n: nat)
    requires Numbered(items, n) && |lines| <= 2 && forall k :: 0 <= k < |lines| ==> lines[k].1 != ""
    ensures Numbered(items + Number(lines, |items|, n), n + 1)
  {
  }

  lemma NothingNumbered()
    ensures Numbered([], 0)
  {
  }

  lemma AtMostTwoInRow(rows: seq<Row>, i: nat)
    requires i < |rows|
    ensures |RowLines(rows, i)| <= 2 && forall k :: 0 <= k < |RowLines(rows, i)| ==> RowLines(rows, i)[k].1 != ""
  {
    hide Lines, SourceKey, Suppress;
    if rows[i].Some? {
      AtMostTwo(rows[i].value, SourceKey(rows[i].value, i) in Suppress(rows, i));
    }
  }

  lemma AtMostTwo(e: Entry, suppressed: bool)
    ensures |Lines(e, suppressed)| <= 2
    ensures forall k :: 0 <= k < |Lines(e, suppressed)| ==> Lines(e, suppressed)[k].1 != ""
  {
    hide TrimSpace, HasToolCall, RenderToolResult, RenderContent, FirstNonEmptyTrimmed;
  }

  /** An entry that shows its model's raw output together with a tool call. */
  ghost predicate Showed(rows: seq<Row>, j: nat, key: Key) {
    j < |rows| && rows[j].Some? && SourceKey(rows[j].value, j) == key && HasToolCall(rows[j].value)
      && TrimSpace(rows[j].value.rawOutput) != ""
  }

  ghost predicate NoToolCall(rows: seq<Row>, j: nat, key: Key) {
    j < |rows| && rows[j].Some? && SourceKey(rows[j].value, j) == key && !HasToolCall(rows[j].value)
  }

  /** Entry `j` showed the raw output, and up to entry `n` no entry without a tool call of that message came. */
  ghost predicate ShownSince(rows: seq<Row>, j: nat, n: nat, key: Key) {
    j < n && Showed(rows, j, key) && forall k: nat :: j < k < n ==> !NoToolCall(rows, k, key)
  }

  /** A request is left out exactly when an earlier entry of the same model message showed the raw output that
      it stands in, and no entry of that message without a tool call came between. */
  lemma {:induction false} SuppressedIff(rows: seq<Row>, n: nat, key: Key)
    requires n <= |rows|
    ensures key in Suppress(rows, n) <==> exists j: nat :: ShownSince(rows, j, n, key)
    decreases n
  {
    hide Showed, NoToolCall;
    if n > 0 {
      SuppressedIff(rows, n - 1, key);
      SuppressStep(rows, n - 1, key);
      if key in Suppress(rows, n) {
        if Showed(rows, n - 1, key) {
          assert ShownSince(rows, n - 1, n, key);
        } else {
          var j: nat :| ShownSince(rows, j, n - 1, key);
          assert ShownSince(rows, j, n, key);
        }
      }
      if j: nat :| ShownSince(rows, j, n, key) && j < n - 1 {
        assert ShownSince(rows, j, n - 1, key);
      }
    }
  }

  lemma SuppressStep(rows: seq<Row>, n: nat, key: Key)
    requires n < |rows|
    ensures key in Suppress(rows, n + 1) <==>
            Showed(rows, n, key) || (key in Suppress(rows, n) && !NoToolCall(rows, n, key))
  {
    hide TrimSpace, HasToolCall, SourceKey;
  }

  // ----- What the lines show, said in the fields of an entry -----

  predicate IsBlank(s: string) {
    TrimSpace(s) == ""
  }

  /** The result of a tool call: its output, else its error, else its info, else its title; without any of them its
      status, unless that says success in one of three words, which is put into a sentence. */
  lemma ResultIs(e: Entry)
    ensures !IsBlank(e.toolOutput) ==> RenderToolResult(e) == TrimSpace(e.toolOutput)
    ensures IsBlank(e.toolOutput) && !IsBlank(e.toolError) ==> RenderToolResult(e) == TrimSpace(e.toolError)
    ensures IsBlank(e.toolOutput) && IsBlank(e.toolError) && !IsBlank(e.callToolInfo) ==>
              RenderToolResult(e) == TrimSpace(e.callToolInfo)
    ensures IsBlank(e.toolOutput) && IsBlank(e.toolError) && IsBlank(e.callToolInfo) && !IsBlank(e.toolTitle) ==>
              RenderToolResult(e) == TrimSpace(e.toolTitle)
    ensures IsBlank(e.toolOutput) && IsBlank(e.toolError) && IsBlank(e.callToolInfo) && IsBlank(e.toolTitle) ==>
              var s := ToLower(TrimSpace(e.toolStatus));
              RenderToolResult(e) ==
              if s == "completed" || s == "success" || s == "done" then "(command succeeded with no output)"
              else TrimSpace(e.toolStatus)
  {
    hide TrimSpace, ToLower;
    FirstOfFour(e.toolOutput, e.toolError, e.callToolInfo, e.toolTitle);
    SuccessIsNotBlank(e.toolStatus);
  }

  lemma FirstOfFour(a: string, b: string, c: string, d: string)
    ensures FirstNonEmptyTrimmed([a, b, c, d]) ==
            if !IsBlank(a) then TrimSpace(a) else if !IsBlank(b) then TrimSpace(b)
            else if !IsBlank(c) then TrimSpace(c) else TrimSpace(d)
  {
    hide TrimSpace;
    assert [a, b, c, d][1..] == [b, c, d] && [b, c, d][1..] == [c, d] && [c, d][1..] == [d] && [d][1..] == [];
    assert FirstNonEmptyTrimmed([d]) == TrimSpace(d);
    assert FirstNonEmptyTrimmed([c, d]) == if !IsBlank(c) then TrimSpace(c) else TrimSpace(d);
  }

  lemma SuccessIsNotBlank(status: string)
    ensures IsEmptySuccess(TrimSpace(status)) <==>
              var s := ToLower(TrimSpace(status)); s == "completed" || s == "success" || s == "done"
    ensures TrimSpace(status) == "" ==> ToLower(TrimSpace(status)) == ""
  {
    TrimSpaceIdempotent(status);
  }

  /** The text of an entry without a tool call and without raw output: its content, else its tool info. */
  lemma TextIs(e: Entry)
    requires !HasToolCall(e) && IsBlank(e.rawOutput)
    ensures RenderContent(e) == if !IsBlank(e.content) then TrimSpace(e.content) else TrimSpace(e.callToolInfo)
  {
    hide TrimSpace;
    var v := [e.toolOutput, e.toolError, e.rawOutput, e.content, e.toolRequestRawJSON, e.toolInputJSON, e.callToolInfo];
    assert v[1..][1..][1..] == [e.content, e.toolRequestRawJSON, e.toolInputJSON, e.callToolInfo];
    assert FirstNonEmptyTrimmed(v) == FirstNonEmptyTrimmed(v[1..]) == FirstNonEmptyTrimmed(v[1..][1..]);
    assert FirstNonEmptyTrimmed(v[1..][1..]) == FirstNonEmptyTrimmed(v[1..][1..][1..]);
    FirstOfFour(e.content, e.toolRequestRawJSON, e.toolInputJSON, e.callToolInfo);
  }

  /** An entry has a tool call when one of seven fields is not blank. */
  lemma HasToolCallIff(e: Entry)
    ensures HasToolCall(e) <==>
              !(IsBlank(e.toolCallID) && IsBlank(e.toolName) && IsBlank(e.toolStatus) && IsBlank(e.toolRequestRawJSON)
                && IsBlank(e.toolInputJSON) && IsBlank(e.toolOutput) && IsBlank(e.toolError))
  {
    hide TrimSpace;
  }

  /** Entries come from one message of the model when they name it, else when they have its number. */
  lemma OneMessageIff(a: Entry, i: nat, b: Entry, j: nat)
    ensures SourceKey(a, i) == SourceKey(b, j) <==>
              if !IsBlank(a.sourceMessageID) || !IsBlank(b.sourceMessageID) then
                TrimSpace(a.sourceMessageID) == TrimSpace(b.sourceMessageID)
              else if a.sequence > 0 || b.sequence > 0 then a.sequence == b.sequence
              else i == j
  {
    hide TrimSpace;
  }

  /** The lines of an entry, at most two: its raw output; then, for a tool call, the request, unless the raw output
      shows it or another entry of its message did, and the result; else, without raw output, the text. */
  lemma LinesAre(e: Entry, suppressed: bool)
    ensures var raw := TrimSpace(e.rawOutput);
            var request := TrimSpace(if IsBlank(e.toolRequestRawJSON) then e.content else e.toolRequestRawJSON);
            var result := RenderToolResult(e);
            var text := if !IsBlank(e.content) then TrimSpace(e.content) else TrimSpace(e.callToolInfo);
            Lines(e, suppressed) ==
            (if raw != "" then [(Raw, raw)] else [])
            + (if HasToolCall(e) then
                 (if raw == "" && !suppressed && request != "" then [(Request, request)] else [])
                 + (if result != "" then [(ToolResult, result)] else [])
               else if raw == "" && text != "" then [(Text, text)] else [])
  {
    hide TrimSpace, HasToolCall, RenderToolResult, RenderContent;
    TrimSpaceIdempotent(e.toolRequestRawJSON);
    TrimSpaceIdempotent(e.content);
    TrimSpaceIdempotent(e.callToolInfo);
    FirstOfTwo(e.toolRequestRawJSON, e.content);
    ResultIsTrimmed(e);
    if !HasToolCall(e) && IsBlank(e.rawOutput) {
      TextIs(e);
    }
  }

  lemma FirstOfTwo(a: string, b: string)
    ensures FirstNonEmptyTrimmed([a, b]) == if IsBlank(a) then TrimSpace(b) else TrimSpace(a)
  {
    hide TrimSpace;
    assert [a, b][1..] == [b] && [b][1..] == [];
    assert FirstNonEmptyTrimmed([b]) == TrimSpace(b);
  }

  lemma ResultIsTrimmed(e: Entry)
    ensures TrimSpace(RenderToolResult(e)) == RenderToolResult(e)
  {
    hide TrimSpace, ToLower, RenderToolResult;
    ResultIs(e);
    TrimSpaceIdempotent(e.toolOutput);
    TrimSpaceIdempotent(e.toolError);
    TrimSpaceIdempotent(e.callToolInfo);
    TrimSpaceIdempotent(e.toolTitle);
    TrimSpaceIdempotent(e.toolStatus);
    MessageIsTrimmed();
  }

  lemma MessageIsTrimmed()
    ensures TrimSpace("(command succeeded with no output)") == "(command succeeded with no output)"
  {
  }

  // ----- From numbers back to entries -----

  datatype Error = NoLines | UnknownMsgID(id: int) | NothingSelected

  datatype Result = Ok(indexes: seq<nat>) | Err(error: Error)

  /** Each value once, where it occurs first. */
  function FirstOccurrences(s: seq<nat>): seq<nat> {
    if s == [] then []
    else var r, last := FirstOccurrences(s[..|s| - 1]), s[|s| - 1]; if last in r then r else r + [last]
  }

  predicate Known(items: seq<Item>, id: int) {
    1 <= id <= |items|
  }

  /** The entries that the numbers stand for, one for each number. */
  function Chosen(items: seq<Item>, ids: seq<int>): (r: seq<nat>)
    requires forall k :: 0 <= k < |ids| ==> Known(items, ids[k])
    ensures |r| == |ids|
  {
    seq(|ids|, k requires 0 <= k < |ids| && Known(items, ids[k]) => items[ids[k] - 1].entryIndex)
  }

  lemma ChosenMore(items: seq<Item>, ids: seq<int>, id: int)
    requires Known(items, id) && forall k :: 0 <= k < |ids| ==> Known(items, ids[k])
    ensures forall k :: 0 <= k <= |ids| ==> Known(items, (ids + [id])[k])
    ensures FirstOccurrences(Chosen(items, ids + [id])) ==
            var r, last := FirstOccurrences(Chosen(items, ids)), items[id - 1].entryIndex;
            if last in r then r else r + [last]
  {
    assert Chosen(items, ids + [id]) == Chosen(items, ids) + [items[id - 1].entryIndex];
    assert (Chosen(items, ids) + [items[id - 1].entryIndex])[..|ids|] == Chosen(items, ids);
  }

  /** The map from numbers to entries. */
  method IdToEntry(items: seq<Item>) returns (idToEntry: map<int, nat>)
    requires forall k :: 0 <= k < |items| ==> items[k].msgID == k + 1
    ensures forall id :: id in idToEntry <==> Known(items, id)
    ensures forall id :: id in idToEntry ==> Known(items, id) && idToEntry[id] == items[id - 1].entryIndex
  {
    idToEntry := map[];
    var i := 0;
    while i < |items|
      invariant 0 <= i <= |items|
      invariant forall id :: id in idToEntry <==> 1 <= id <= i
      invariant forall id :: id in idToEntry ==> 1 <= id <= i && idToEntry[id] == items[id - 1].entryIndex
    {
      var it := items[i];
      i := i + 1;
      if it.msgID <= 0 {
        continue;
      }
      if it.msgID in idToEntry {
        continue;
      }
      idToEntry := idToEntry[it.msgID := it.entryIndex];
    }
  }

  /** The numbers are accepted exactly when there is a transcript, some are given, and all are in it; the answer is
      their entries, each once, in the order of first mention. Otherwise the error names what is missing. */
  method MsgIDsToEntryIndexes(rows: seq<Row>, msgIDs: seq<int>) returns (r: Result)
    ensures var items := Items(rows, |rows|);
            && (r.Ok? <==> |items| > 0 && |msgIDs| > 0 && forall k :: 0 <= k < |msgIDs| ==> 1 <= msgIDs[k] <= |items|)
            && (r.Ok? ==> r.indexes == FirstOccurrences(Chosen(items, msgIDs)))
            && (r == Err(NoLines) <==> |items| == 0)
            && (r == Err(NothingSelected) <==> |items| > 0 && |msgIDs| == 0)
            && (r.Err? && r.error.UnknownMsgID? ==> exists k ::
                  0 <= k < |msgIDs| && msgIDs[k] == r.error.id && !Known(items, msgIDs[k])
                                                              && forall j :: 0 <= j < k ==> Known(items, msgIDs[j]))
  {
    hide RowLines, Items, FirstOccurrences;
    var items := MemoryTranscriptItemsFromEntries(rows);
    if |items| == 0 {
      return Err(NoLines);
    }
    Numbering(rows, |rows|);
    var idToEntry := IdToEntry(items);
    var result: seq<nat> := [];
    ghost var done: seq<int> := [];
    NoneChosen(items);
    var i := 0;
    while i < |msgIDs|
      invariant 0 <= i <= |msgIDs| && done == msgIDs[..i]
      invariant forall k :: 0 <= k < |done| ==> Known(items, done[k])
      invariant result == FirstOccurrences(Chosen(items, done)) && (i > 0 ==> result != [])
    {
      var id := msgIDs[i];
      if id !in idToEntry {
        assert forall j :: 0 <= j < i ==> Known(items, done[j]) && done[j] == msgIDs[j];
        return Err(UnknownMsgID(id));
      }
      ChosenMore(items, done, id);
      i, done := i + 1, done + [id];
      var idx := idToEntry[id];
      if idx in result {
        continue;
      }
      result := result + [idx];
    }
    assert done == msgIDs;
    if |result| == 0 {
      return Err(NothingSelected);
    }
    return Ok(result);
  }

  lemma NoneChosen(items: seq<Item>)
    ensures FirstOccurrences(Chosen(items, [])) == []
  {
  }

  /** FirstOccurrences keeps exactly the values, none twice, and orders them by first mention. */
  lemma {:induction false} FirstOccurrencesAre(s: seq<nat>)
    ensures var r := FirstOccurrences(s);
            && (forall x :: x in r <==> x in s)
            && (forall j, k :: 0 <= j < k < |r| ==> r[j] != r[k] && Precedes(s, r[j], r[k]))
    decreases |s|
  {
    if s != [] {
      var n := |s| - 1;
      var front, last := s[..n], s[n];
      FirstOccurrencesAre(front);
      var r := FirstOccurrences(front);
      assert s == front + [last];
      forall x, y | Precedes(front, x, y)
        ensures Precedes(s, x, y)
      {
        PrecedesMore(front, last, x, y);
      }
      forall x | x in front && last !in front
        ensures Precedes(s, x, last)
      {
        var i :| 0 <= i < n && front[i] == x;
        assert s[i] == x && last !in s[..i];
      }
    }
  }

  /** `x` is mentioned before `y` is for the first time. */
  ghost predicate Precedes(s: seq<nat>, x: nat, y: nat) {
    exists i :: 0 <= i < |s| && s[i] == x && y !in s[..i + 1]
  }

  lemma PrecedesMore(s: seq<nat>, last: nat, x: nat, y: nat)
    requires Precedes(s, x, y)
    ensures Precedes(s + [last], x, y)
  {
    var i :| 0 <= i < |s| && s[i] == x && y !in s[..i + 1];
    assert (s + [last])[i] == x && (s + [last])[..i + 1] == s[..i + 1];
  }
}

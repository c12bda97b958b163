/** agent/memory/memory.go: the entries that stand for a chat history in the transcript, when there are no
    stored ones. A native batch of calls is paired with the tool rows behind it. */
module HistoryPairing {
  import opened GoStrings

  datatype Call = Call(id: string, name: string, arguments: string)

  /** What rows hand on unread: phase, provider payloads and reasoning. */
  datatype Carried = Carried(phase: string, outputRaw: string, reasoningRaws: seq<string>, reasoning: string)

  datatype Item = Item(
    role: string,
    content: string,
    rawOutput: string,
    calls: seq<Call>,
    toolCallID: string,
    toolName: string,
    toolSystemMessage: string,
    toolError: string,
    toolStatus: string,
    carried: Carried,
    created: int)

  /** A row of the history; the source's slices may hold nil pointers. */
  type Row = Option<Item>

  /** What a tool row says about its call. */
  datatype Answer = Answer(output: string, systemMessage: string, error: string, status: string)

  datatype Entry =
    | TextEntry(role: string, content: string, rawOutput: string, carried: Carried, created: int)
    | ToolEntry(id: string, name: string, input: string, answer: Answer, carried: Carried, created: int)

  const NOTHING := Carried("", "", [], "")
  const NO_ANSWER := Answer("", "", "", "")

  function Carry(i: Item): Carried {
    Carried(TrimSpace(i.carried.phase), TrimSpace(i.carried.outputRaw), i.carried.reasoningRaws,
            TrimSpace(i.carried.reasoning))
  }

  function AnswerOf(i: Item): Answer {
    Answer(TrimSpace(i.content), TrimSpace(i.toolSystemMessage), TrimSpace(i.toolError), TrimSpace(i.toolStatus))
  }

  predicate IsToolRow(r: Row) {
    r.Some? && TrimSpace(r.value.role) == "tool"
  }

  predicate IsBatch(r: Row) {
    r.Some? && TrimSpace(r.value.role) == "assistant" && |r.value.calls| > 0
  }

  // ----- The entries of one row -----

  predicate ShowsContent(i: Item) {
    TrimSpace(i.content) != "" && TrimSpace(i.content) != "call_tool"
  }

  predicate HasText(i: Item) {
    ShowsContent(i) || TrimSpace(i.rawOutput) != ""
  }

  /** The text in front of a batch. */
  function BatchText(i: Item): Entry {
    TextEntry("assistant", if ShowsContent(i) then TrimSpace(i.content) else "", TrimSpace(i.rawOutput), Carry(i),
              i.created)
  }

  /** The row answers the call, or does not say which call it answers. */
  predicate Answers(row: Item, call: Call) {
    TrimSpace(row.toolCallID) == "" || TrimSpace(row.toolCallID) == TrimSpace(call.id)
  }

  function CallEntry(i: Item, call: Call, answer: Answer): Entry {
    ToolEntry(TrimSpace(call.id), TrimSpace(call.name), TrimSpace(call.arguments), answer, Carry(i), i.created)
  }

  const PREFIX := "call_tool_"

  /** The entry of a row on its own. */
  function Alone(i: Item): Entry {
    var role, content, raw := TrimSpace(i.role), TrimSpace(i.content), TrimSpace(i.rawOutput);
    if role == "tool" then
      ToolEntry(TrimSpace(i.toolCallID), TrimSpace(i.toolName), "", AnswerOf(i), NOTHING, i.created)
    else if PREFIX <= role then
      ToolEntry("", role[|PREFIX|..], "", NO_ANSWER.(output := content), NOTHING, i.created)
    else
      TextEntry(role, content, if raw == "" then content else raw, Carry(i), i.created)
  }

  // ----- Which entries there are -----

  /** Where an entry comes from: the text of batch `i`, call `j` of batch `i`, or row `i` on its own. */
  datatype Origin = OfText(i: nat) | OfCall(i: nat, j: nat) | OfRow(i: nat)

  datatype Made = Made(origin: Origin, entry: Entry)

  /** Row `r` is taken by batch `b`: there is a call for it, and only tool rows stand from the batch to it. */
  predicate Taken(rows: seq<Row>, b: nat, r: nat) {
    && b < r < |rows| && IsBatch(rows[b]) && r - b <= |rows[b].value.calls|
    && forall k :: b < k <= r ==> IsToolRow(rows[k])
  }

  ghost predicate TakenByAny(rows: seq<Row>, r: nat) {
    exists b: nat :: Taken(rows, b, r)
  }

  /** The entries that the history has, by where they come from. */
  ghost predicate Present(rows: seq<Row>, o: Origin) {
    && o.i < |rows| && rows[o.i].Some?
    && match o
       case OfText(i) => IsBatch(rows[i]) && HasText(rows[i].value)
       case OfCall(i, j) => IsBatch(rows[i]) && j < |rows[i].value.calls|
       case OfRow(i) => !IsBatch(rows[i]) && !TakenByAny(rows, i)
  }

  /** What such an entry says: call `j` of a batch has the answer of the `j`-th row behind it, if that row is
      the batch's and is for this call or for none in particular. */
  function EntryOf(rows: seq<Row>, o: Origin): Entry
    requires o.i < |rows| && rows[o.i].Some? && (o.OfCall? ==> o.j < |rows[o.i].value.calls|)
  {
    var item := rows[o.i].value;
    match o
    case OfText(i) => BatchText(item)
    case OfRow(i) => Alone(item)
    case OfCall(i, j) =>
      var r := i + 1 + j;
      CallEntry(item, item.calls[j],
                if Taken(rows, i, r) && Answers(rows[r].value, item.calls[j]) then AnswerOf(rows[r].value)
                else NO_ANSWER)
  }

  // ----- The loop, on values -----

  /** How many of the rows from `start` on a batch of `max` calls takes. */
  function Follow(rows: seq<Row>, start: nat, max: nat): (n: nat)
    requires start <= |rows|
    ensures n <= max && start + n <= |rows|
    ensures forall k :: start <= k < start + n ==> IsToolRow(rows[k])
    ensures n == max || start + n == |rows| || !IsToolRow(rows[start + n])
    decreases max
  {
    if max == 0 || start == |rows| || !IsToolRow(rows[start]) then 0 else 1 + Follow(rows, start + 1, max - 1)
  }

  function CallsMade(rows: seq<Row>, i: nat): (made: seq<Made>)
    requires i < |rows| && IsBatch(rows[i])
    ensures |made| == |rows[i].value.calls|
    ensures forall j :: 0 <= j < |made| ==> made[j] == Made(OfCall(i, j), EntryOf(rows, OfCall(i, j)))
  {
    seq(|rows[i].value.calls|,
        j requires 0 <= j < |rows[i].value.calls| => Made(OfCall(i, j), EntryOf(rows, OfCall(i, j))))
  }

  function TextMade(rows: seq<Row>, i: nat): seq<Made>
    requires i < |rows| && rows[i].Some?
  {
    if HasText(rows[i].value) then [Made(OfText(i), BatchText(rows[i].value))] else []
  }

  /** What row `i` makes, with the tool rows that it takes. */
  function MadeAt(rows: seq<Row>, i: nat): seq<Made>
    requires i < |rows|
  {
    if rows[i].None? then []
    else if IsBatch(rows[i]) then TextMade(rows, i) + CallsMade(rows, i)
    else [Made(OfRow(i), Alone(rows[i].value))]
  }

  function NextRow(rows: seq<Row>, i: nat): (n: nat)
    requires i < |rows|
    ensures i < n <= |rows|
  {
    if IsBatch(rows[i]) then i + 1 + Follow(rows, i + 1, |rows[i].value.calls|) else i + 1
  }

  function MadeFrom(rows: seq<Row>, i: nat): seq<Made>
    requires i <= |rows|
    decreases |rows| - i
  {
    if i == |rows| then [] else MadeAt(rows, i) + MadeFrom(rows, NextRow(rows, i))
  }

  function Entries(made: seq<Made>): (es: seq<Entry>)
    ensures |es| == |made| && forall k :: 0 <= k < |es| ==> es[k] == made[k].entry
  {
    seq(|made|, k requires 0 <= k < |made| => made[k].entry)
  }

  /** The rows of a batch are the ones that Follow counts. */
  lemma FollowTakes(rows: seq<Row>, i: nat, r: nat)
    requires i < |rows| && IsBatch(rows[i])
    ensures Taken(rows, i, r) <==> i < r <= i + Follow(rows, i + 1, |rows[i].value.calls|)
  {
    hide IsToolRow, IsBatch;
  }

  method CollectFollowingToolRows(history: seq<Row>, start: nat, max: nat) returns (out: seq<Item>)
    ensures start <= |history| ==> |out| == Follow(history, start, max)
    ensures forall k :: 0 <= k < |out| ==> start + k < |history| && history[start + k] == Some(out[k])
  {
    hide TrimSpace;
    out := [];
    if max <= 0 || start >= |history| {
      return;
    }
    var i := start;
    while i < |history| && |out| < max
      invariant start <= i <= |history| && i == start + |out| && |out| <= max
      invariant Follow(history, start, max) == |out| + Follow(history, i, max - |out|)
      invariant forall k :: 0 <= k < |out| ==> history[start + k] == Some(out[k])
    {
      var it := history[i];
      if it == None || TrimSpace(it.value.role) != "tool" {
        return;
      }
      out := out + [it.value];
      i := i + 1;
    }
  }

  /** The entries of the calls of one batch. */
  method BatchEntries(history: seq<Row>, i: nat, toolRows: seq<Item>) returns (out: seq<Entry>)
    requires i < |history| && history[i].Some? && IsBatch(history[i])
    requires |toolRows| == Follow(history, i + 1, |history[i].value.calls|)
    requires forall k :: 0 <= k < |toolRows| ==> history[i + 1 + k] == Some(toolRows[k])
    ensures out == Entries(CallsMade(history, i))
  {
    hide TrimSpace, IsBatch, IsToolRow, AnswerOf, Follow, Taken, Answers, CallEntry;
    var item := history[i].value;
    out := [];
    var j := 0;
    while j < |item.calls|
      invariant 0 <= j <= |item.calls| && |out| == j
      invariant forall k :: 0 <= k < j ==> out[k] == EntryOf(history, OfCall(i, k))
    {
      var c := item.calls[j];
      var entry := CallEntry(item, c, NO_ANSWER);
      FollowTakes(history, i, i + 1 + j);
      if j < |toolRows| {
        assert history[i + 1 + j] == Some(toolRows[j]);
        if Answers(toolRows[j], c) {
          entry := CallEntry(item, c, AnswerOf(toolRows[j]));
        }
      }
      out := out + [entry];
      j := j + 1;
    }
  }

  lemma EntriesConcat(a: seq<Made>, b: seq<Made>)
    ensures Entries(a + b) == Entries(a) + Entries(b)
  {
  }

  method MemoryEntriesFromChatHistory(history: seq<Row>) returns (out: seq<Entry>)
    ensures out == Entries(MadeFrom(history, 0))
  {
    hide CallsMade, Follow, Alone, BatchText, MadeFrom, MadeAt, NextRow, ShowsContent, TrimSpace;
    out := [];
    var i := 0;
    while i < |history|
      invariant 0 <= i <= |history|
      invariant out + Entries(MadeFrom(history, i)) == Entries(MadeFrom(history, 0))
    {
      MadeOnce(history, i);
      MadeAtIs(history, i);
      Assoc(out, Entries(MadeAt(history, i)), Entries(MadeFrom(history, NextRow(history, i))));
      if history[i] == None {
        assert out + [] == out;
        i := i + 1;
        continue;
      }
      var item := history[i].value;
      if TrimSpace(item.role) == "assistant" && |item.calls| > 0 {
        var text := [];
        if ShowsContent(item) {
          text := [BatchText(item)];
        } else if TrimSpace(item.rawOutput) != "" {
          text := [BatchText(item)];
        }
        var toolRows := CollectFollowingToolRows(history, i + 1, |item.calls|);
        var calls := BatchEntries(history, i, toolRows);
        out := out + (text + calls);
        i := i + 1 + |toolRows|;
        continue;
      }
      out := out + [Alone(item)];
      i := i + 1;
    }
    NothingMade(history);
    assert out + [] == out;
  }

  lemma MadeAtIs(rows: seq<Row>, i: nat)
    requires i < |rows|
    ensures var made := Entries(MadeAt(rows, i));
            if rows[i].None? then made == [] && NextRow(rows, i) == i + 1
            else
              var item := rows[i].value;
              if TrimSpace(item.role) == "assistant" && |item.calls| > 0 then
                && made == (if ShowsContent(item) || TrimSpace(item.rawOutput) != "" then [BatchText(item)] else [])
                  + Entries(CallsMade(rows, i))
                && NextRow(rows, i) == i + 1 + Follow(rows, i + 1, |item.calls|)
              else made == [Alone(item)] && NextRow(rows, i) == i + 1
  {
    hide TrimSpace, CallsMade, Follow, Alone, BatchText, ShowsContent, EntryOf, Entries;
    if IsBatch(rows[i]) {
      var text := TextMade(rows, i);
      EntriesConcat(text, CallsMade(rows, i));
      assert Entries(text) == if text == [] then [] else [BatchText(rows[i].value)];
    } else if rows[i].Some? {
      assert Entries(MadeAt(rows, i)) == [Alone(rows[i].value)];
    }
  }

  lemma MadeOnce(rows: seq<Row>, i: nat)
    requires i < |rows|
    ensures Entries(MadeFrom(rows, i)) == Entries(MadeAt(rows, i)) + Entries(MadeFrom(rows, NextRow(rows, i)))
  {
    hide MadeAt, NextRow;
    EntriesConcat(MadeAt(rows, i), MadeFrom(rows, NextRow(rows, i)));
  }

  lemma NothingMade(rows: seq<Row>)
    ensures Entries(MadeFrom(rows, |rows|)) == []
  {
  }

  // ----- What the list of entries is -----

  function Place(o: Origin): nat {
    if o.OfCall? then o.j + 1 else 0
  }

  predicate Earlier(a: Origin, b: Origin) {
    a.i < b.i || (a.i == b.i && Place(a) < Place(b))
  }

  predicate Sorted(made: seq<Made>) {
    forall a, b :: 0 <= a < b < |made| ==> Earlier(made[a].origin, made[b].origin)
  }

  /** Everything made is to be there, from row `i` on, and says what it should. */
  ghost predicate Sound(rows: seq<Row>, made: seq<Made>, i: nat) {
    forall k :: 0 <= k < |made| ==>
      && i <= made[k].origin.i && Present(rows, made[k].origin) && made[k].entry == EntryOf(rows, made[k].origin)
  }

  /** No row that is reached belongs to an earlier batch. */
  lemma NextIsFree(rows: seq<Row>, i: nat)
    requires i < |rows| && !TakenByAny(rows, i)
    ensures !TakenByAny(rows, NextRow(rows, i))
  {
    hide IsToolRow, IsBatch, Follow;
    var n := NextRow(rows, i);
    if b: nat :| Taken(rows, b, n) {
      if b < i {
        TakenBetween(rows, b, i, n);
      } else if b == i {
        FollowTakes(rows, i, n);
      } else {
        BatchIsNoTool(rows[b]);
        FollowTakes(rows, i, b);
      }
    }
  }

  lemma TakenBetween(rows: seq<Row>, b: nat, k: nat, r: nat)
    requires Taken(rows, b, r) && b < k <= r
    ensures Taken(rows, b, k)
  {
  }

  lemma BatchIsNoTool(r: Row)
    ensures !(IsBatch(r) && IsToolRow(r))
  {
  }

  lemma MadeAtSound(rows: seq<Row>, i: nat)
    requires i < |rows| && !TakenByAny(rows, i)
    ensures Sound(rows, MadeAt(rows, i), i) && Sorted(MadeAt(rows, i))
    ensures forall k :: 0 <= k < |MadeAt(rows, i)| ==> MadeAt(rows, i)[k].origin.i == i
  {
    hide TrimSpace, HasText, BatchText, Alone, TakenByAny, Taken, IsBatch;
    if rows[i].Some? && IsBatch(rows[i]) {
      var text, calls := TextMade(rows, i), CallsMade(rows, i);
      assert |text| <= 1 && MadeAt(rows, i) == text + calls;
    }
  }

  lemma SoundConcat(rows: seq<Row>, a: seq<Made>, b: seq<Made>, i: nat, n: nat)
    requires Sound(rows, a, i) && Sorted(a) && Sound(rows, b, n) && Sorted(b) && i < n
    requires forall k :: 0 <= k < |a| ==> a[k].origin.i == i
    ensures Sound(rows, a + b, i) && Sorted(a + b)
  {
    hide Present, EntryOf, Place;
  }

  /** Each entry is one that should be there, in order, and none comes twice. */
  lemma {:induction false} EntriesSound(rows: seq<Row>, i: nat)
    requires i <= |rows| && !TakenByAny(rows, i)
    ensures Sound(rows, MadeFrom(rows, i), i) && Sorted(MadeFrom(rows, i))
    decreases |rows| - i
  {
    hide MadeAt, NextRow, TakenByAny, Sound, Sorted;
    if i == |rows| {
      NoneIsSound(rows, i);
    } else {
      MadeAtSound(rows, i);
      NextIsFree(rows, i);
      EntriesSound(rows, NextRow(rows, i));
      SoundConcat(rows, MadeAt(rows, i), MadeFrom(rows, NextRow(rows, i)), i, NextRow(rows, i));
    }
  }

  lemma NoneIsSound(rows: seq<Row>, i: nat)
    ensures Sound(rows, [], i) && Sorted([])
  {
  }

  /** ... and everything that should be there is. */
  lemma {:induction false} EntriesComplete(rows: seq<Row>, i: nat, o: Origin)
    requires i <= |rows| && Present(rows, o) && i <= o.i
    ensures Made(o, EntryOf(rows, o)) in MadeFrom(rows, i)
    decreases |rows| - i
  {
    hide TrimSpace, HasText, BatchText, Alone, Follow;
    if o.i == i {
      MadeAtComplete(rows, o);
    } else {
      if o.i < NextRow(rows, i) {
        FollowTakes(rows, i, o.i);
        BatchIsNoTool(rows[o.i]);
      }
      EntriesComplete(rows, NextRow(rows, i), o);
    }
  }

  lemma MadeAtComplete(rows: seq<Row>, o: Origin)
    requires Present(rows, o)
    ensures Made(o, EntryOf(rows, o)) in MadeAt(rows, o.i)
  {
    hide TrimSpace, HasText, BatchText, Alone, Taken, Answers, CallEntry, AnswerOf;
    if o.OfCall? {
      assert CallsMade(rows, o.i)[o.j] == Made(o, EntryOf(rows, o));
    } else if o.OfText? {
      assert TextMade(rows, o.i)[0] == Made(o, EntryOf(rows, o));
    }
  }

  /** The entries of a history are exactly the ones that should be there, each once and in the order of the history. */
  lemma ExactlyThese(rows: seq<Row>, o: Origin)
    ensures Sorted(MadeFrom(rows, 0))
    ensures Present(rows, o) ==> Made(o, EntryOf(rows, o)) in MadeFrom(rows, 0)
    ensures forall m :: m in MadeFrom(rows, 0) && m.origin == o ==> Present(rows, o) && m.entry == EntryOf(rows, o)
  {
    hide MadeFrom, Present, EntryOf, Sorted;
    assert !TakenByAny(rows, 0);
    EntriesSound(rows, 0);
    if Present(rows, o) {
      EntriesComplete(rows, 0, o);
    }
  }

  // ----- When a tool's output is lost -----

  /** The entry has the output of row `r`. */
  predicate Holds(rows: seq<Row>, o: Origin, r: nat)
  {
    o == OfRow(r)
      || (o.OfCall? && r == o.i + 1 + o.j && Taken(rows, o.i, r) && Answers(rows[r].value, rows[o.i].value.calls[o.j]))
  }

  /** The row stands where another call's row is expected. */
  ghost predicate Misplaced(rows: seq<Row>, r: nat) {
    exists b: nat :: Taken(rows, b, r) && !Answers(rows[r].value, rows[b].value.calls[r - b - 1])
  }

  lemma TakenOnce(rows: seq<Row>, b: nat, c: nat, r: nat)
    requires Taken(rows, b, r) && Taken(rows, c, r)
    ensures b == c
  {
    BatchIsNoTool(rows[b]);
    BatchIsNoTool(rows[c]);
  }

  lemma HolderIsHome(rows: seq<Row>, o: Origin, r: nat)
    requires r < |rows| && IsToolRow(rows[r]) && Present(rows, o) && Holds(rows, o, r)
    ensures o == Home(rows, r) && !Misplaced(rows, r)
    ensures EntryOf(rows, o).ToolEntry? && EntryOf(rows, o).answer == AnswerOf(rows[r].value)
  {
    hide TrimSpace, Answers, AnswerOf, IsBatch;
    forall b: nat | Taken(rows, b, r)
      ensures o == OfCall(b, r - b - 1)
    {
      if o.OfCall? {
        TakenOnce(rows, b, o.i, r);
      }
    }
  }

  lemma HomeIsPresent(rows: seq<Row>, r: nat)
    requires r < |rows| && IsToolRow(rows[r]) && !Misplaced(rows, r)
    ensures Present(rows, Home(rows, r)) && Holds(rows, Home(rows, r), r)
  {
    hide TrimSpace, Answers;
    BatchIsNoTool(rows[r]);
    if b: nat :| Taken(rows, b, r) {
      TakenHome(rows, r, b);
    }
  }

  lemma TakenHome(rows: seq<Row>, r: nat, b: nat)
    requires Taken(rows, b, r)
    ensures Home(rows, r) == OfCall(b, r - b - 1)
  {
    forall c: nat | Taken(rows, c, r)
      ensures c == b
    {
      TakenOnce(rows, b, c, r);
    }
  }

  /** The output of a tool row is in the transcript, and in one entry, exactly when the row does not stand in the
      place of another call's; a row that does is taken and its output dropped. */
  lemma OutputKeptIff(rows: seq<Row>, r: nat)
    requires r < |rows| && IsToolRow(rows[r])
    ensures (exists m :: m in MadeFrom(rows, 0) && Holds(rows, m.origin, r)) <==> !Misplaced(rows, r)
    ensures forall m ::
              m in MadeFrom(rows, 0) && Holds(rows, m.origin, r) ==>
                m.entry.ToolEntry? && m.entry.answer == AnswerOf(rows[r].value)
    ensures forall m ::
              m in MadeFrom(rows, 0) && Holds(rows, m.origin, r) ==>
                && m.entry.ToolEntry?
                && m.entry.answer.output == TrimSpace(rows[r].value.content)
                && m.entry.answer.error == TrimSpace(rows[r].value.toolError)
                && m.entry.answer.systemMessage == TrimSpace(rows[r].value.toolSystemMessage)
                && m.entry.answer.status == TrimSpace(rows[r].value.toolStatus)
    ensures forall m, m' ::
              m in MadeFrom(rows, 0) && m' in MadeFrom(rows, 0) ==>
                (Holds(rows, m.origin, r) && Holds(rows, m'.origin, r) ==> m == m')
  {
    hide MadeFrom, Taken, Answers, Sorted;
    BatchIsNoTool(rows[r]);
    forall m | m in MadeFrom(rows, 0) && Holds(rows, m.origin, r)
      ensures Present(rows, m.origin) && m.entry == EntryOf(rows, m.origin) && m.origin == Home(rows, r)
      ensures !Misplaced(rows, r)
      ensures m.entry.ToolEntry? && m.entry.answer == AnswerOf(rows[r].value)
    {
      ExactlyThese(rows, m.origin);
      HolderIsHome(rows, m.origin, r);
    }
    if !Misplaced(rows, r) {
      HomeIsPresent(rows, r);
      var o := Home(rows, r);
      ExactlyThese(rows, o);
      assert Made(o, EntryOf(rows, o)) in MadeFrom(rows, 0) && Holds(rows, Made(o, EntryOf(rows, o)).origin, r);
    }
  }

  /** Where a tool row belongs: to its call, or to itself. */
  ghost function Home(rows: seq<Row>, r: nat): Origin {
    if exists b: nat :: Taken(rows, b, r) then var b: nat :| Taken(rows, b, r); OfCall(b, r - b - 1) else OfRow(r)
  }

  /** A result that names another call is dropped with the row: one call, and behind it a result for another. */
  lemma OutputCanBeLost(batch: Item, row: Item)
    requires IsBatch(Some(batch)) && |batch.calls| == 1 && IsToolRow(Some(row)) && !Answers(row, batch.calls[0])
    ensures forall m :: m in MadeFrom([Some(batch), Some(row)], 0) ==> !Holds([Some(batch), Some(row)], m.origin, 1)
  {
    hide MadeFrom, Answers, IsBatch, IsToolRow, Holds;
    var rows := [Some(batch), Some(row)];
    assert Taken(rows, 0, 1);
    assert Misplaced(rows, 1);
    OutputKeptIff(rows, 1);
  }

  // ----- The same, said in the fields of the rows -----

  predicate IsRole(r: Row, role: string) {
    r.Some? && TrimSpace(r.value.role) == role
  }

  /** The output, notes, error and status of an entry are those of the row, each in its place. */
  predicate FromRow(a: Answer, i: Item) {
    && a.output == TrimSpace(i.content) && a.systemMessage == TrimSpace(i.toolSystemMessage)
    && a.error == TrimSpace(i.toolError) && a.status == TrimSpace(i.toolStatus)
  }

  predicate Empty(a: Answer) {
    a.output == "" && a.systemMessage == "" && a.error == "" && a.status == ""
  }

  predicate HandsOn(c: Carried, i: Item) {
    && c.phase == TrimSpace(i.carried.phase) && c.outputRaw == TrimSpace(i.carried.outputRaw)
    && c.reasoningRaws == i.carried.reasoningRaws && c.reasoning == TrimSpace(i.carried.reasoning)
  }

  /** The `j`-th row behind a batch is a tool row, as are those between, and it names call `j` or no call. */
  predicate HasOwnRow(rows: seq<Row>, i: nat, j: nat)
    requires i < |rows| && rows[i].Some? && j < |rows[i].value.calls|
  {
    && i + 1 + j < |rows|
    && (forall k :: i < k <= i + 1 + j ==> IsRole(rows[k], "tool"))
    && (TrimSpace(rows[i + 1 + j].value.toolCallID) == ""
        || TrimSpace(rows[i + 1 + j].value.toolCallID) == TrimSpace(rows[i].value.calls[j].id))
  }

  /** What the entry of a call says. */
  lemma CallSays(rows: seq<Row>, i: nat, j: nat)
    requires i < |rows| && IsRole(rows[i], "assistant") && j < |rows[i].value.calls|
    ensures var e := EntryOf(rows, OfCall(i, j));
            && e.ToolEntry? && HandsOn(e.carried, rows[i].value) && e.created == rows[i].value.created
            && e.id == TrimSpace(rows[i].value.calls[j].id) && e.name == TrimSpace(rows[i].value.calls[j].name)
            && e.input == TrimSpace(rows[i].value.calls[j].arguments)
            && if HasOwnRow(rows, i, j) then FromRow(e.answer, rows[i + 1 + j].value) else Empty(e.answer)
  {
    hide TrimSpace;
    var r := i + 1 + j;
    assert Taken(rows, i, r) <==> r < |rows| && forall k :: i < k <= r ==> IsRole(rows[k], "tool");
  }

  /** What the text entry in front of a batch says, and when there is one. */
  lemma BatchSays(rows: seq<Row>, i: nat)
    requires i < |rows| && IsRole(rows[i], "assistant") && rows[i].value.calls != []
    ensures var item := rows[i].value;
            var shown := TrimSpace(item.content) != "" && TrimSpace(item.content) != "call_tool";
            var e := EntryOf(rows, OfText(i));
            && (Present(rows, OfText(i)) <==> shown || TrimSpace(item.rawOutput) != "")
            && e.TextEntry? && e.role == "assistant" && e.content == (if shown then TrimSpace(item.content) else "")
            && e.rawOutput == TrimSpace(item.rawOutput) && HandsOn(e.carried, item) && e.created == item.created
  {
    hide TrimSpace;
  }

  /** What a row on its own says: a tool's row, one of the old kind that names the tool in its role, or any other. */
  lemma RowSays(rows: seq<Row>, i: nat)
    requires i < |rows| && rows[i].Some?
    ensures var item := rows[i].value;
            var role, content, raw := TrimSpace(item.role), TrimSpace(item.content), TrimSpace(item.rawOutput);
            var e := EntryOf(rows, OfRow(i));
            && e.created == item.created
            && (role == "tool" ==>
                && e.ToolEntry? && e.id == TrimSpace(item.toolCallID) && e.name == TrimSpace(item.toolName)
                && e.input == "" && FromRow(e.answer, item))
            && ("call_tool_" <= role ==>
                && e.ToolEntry? && e.id == "" && e.name == role[10..] && e.input == ""
                && e.answer.output == content && Empty(e.answer.(output := "")))
            && (role != "tool" && !("call_tool_" <= role) ==>
                && e.TextEntry? && e.role == role && e.content == content && HandsOn(e.carried, item)
                && e.rawOutput == if raw == "" then content else raw)
  {
    hide TrimSpace;
  }

  /** Which rows have an entry of their own: all but batches, and tool rows that stand behind a batch which makes as
      many calls. */
  lemma RowIsAloneIff(rows: seq<Row>, r: nat)
    requires r < |rows| && rows[r].Some?
    ensures Present(rows, OfRow(r)) <==>
              && !(IsRole(rows[r], "assistant") && rows[r].value.calls != [])
              && !exists b: nat :: && b < r && IsRole(rows[b], "assistant") && r - b <= |rows[b].value.calls|
                                   && forall k :: b < k <= r ==> IsRole(rows[k], "tool")
  {
    hide TrimSpace;
    forall b: nat
      ensures Taken(rows, b, r) <==>
                && b < r && IsRole(rows[b], "assistant") && r - b <= |rows[b].value.calls|
                && forall k :: b < k <= r ==> IsRole(rows[k], "tool")
    {
    }
  }
}

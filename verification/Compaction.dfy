/** agent/session/memory_compaction_levels.go: the loop that summarises the oldest memory entries
    until the memory fits its token target. The summariser is an oracle: any answer at any call. */
module MemoryCompaction {
  import opened GoStrings

  datatype EntryData = EntryData(
    id: nat,
    sessionID: string,
    sourceMessageID: string,
    sourcePartID: string,
    kind: string,
    role: string,
    content: string,
    synthetic: bool,
    level: int,
    sequence: int,
    created: int,
    tokenCount: int)

  /** A *types.MemoryEntry. Batches are looked up by pointer, so entries are objects; the compaction
      never writes to one once it is built. */
  class MemoryEntry {
    const data: EntryData

    constructor (data: EntryData)
      ensures this.data == data
    {
      this.data := data;
    }
  }

  /** The token estimate of an entry's rendered text; it does not look at the entry's token count. */
  type Estimate = EntryData -> nat

  datatype SummaryOutcome = Summary(text: string) | Failure(err: string)

  datatype Config = Config(triggerPercent: int, targetPercent: int, scopePercent: int, force: bool)

  datatype LevelLog = LevelLog(entryIDs: seq<nat>, sequenceFrom: int, sequenceTo: int, beforeTokens: int,
                               afterTokens: int)

  datatype Outcome =
    | Skipped(reason: string, kept: seq<MemoryEntry>, tokens: int)
    | Compacted(entries: seq<MemoryEntry>, levels: seq<int>, logs: seq<LevelLog>, summary: string, beforeTokens: int,
                afterTokens: int)
    | Failed(err: string)

  const COMPACTION_USER := "compaction_user"
  const SUMMARY_USER := "summary_user"
  const SUMMARY_ASSISTANT := "summary_assistant"
  const SUMMARY_PROMPT := "总结一下之前都做了什么。"
  const EMPTY_SUMMARY := "memory compaction summary is empty"

  // ----- Token arithmetic -----

  /** Go's integer division truncates toward zero. */
  function GoDiv(a: int, b: int): int
    requires b > 0
  {
    if a >= 0 then a / b else -((-a) / b)
  }

  /** totalMemoryTokens: the stored counts, whatever they are. */
  function Total(entries: seq<MemoryEntry>): int {
    if entries == [] then 0 else Total(entries[..|entries| - 1]) + entries[|entries| - 1].data.tokenCount
  }

  /** memoryEntryTokenCount: the stored count when it is positive, the estimate otherwise. */
  function CountOf(e: MemoryEntry, est: Estimate): nat {
    if e.data.tokenCount > 0 then e.data.tokenCount else est(e.data.(tokenCount := 0))
  }

  function SumCounts(entries: seq<MemoryEntry>, est: Estimate): nat {
    if entries == [] then 0 else SumCounts(entries[..|entries| - 1], est) + CountOf(entries[|entries| - 1], est)
  }

  function UsagePercent(total: int, limit: int): int {
    if limit <= 0 then 0 else GoDiv(total * 100, limit)
  }

  predicate MeetsTarget(total: int, limit: int, targetPercent: int) {
    targetPercent <= 0 || UsagePercent(total, limit) <= targetPercent
  }

  predicate ShouldTrigger(currentTokens: int, limit: int, triggerPercent: int, force: bool) {
    force || (limit > 0 && triggerPercent > 0 && GoDiv(currentTokens * 100, limit) >= triggerPercent)
  }

  lemma GoDivAtLeast(a: int, b: int, t: int)
    requires b > 0 && t > 0
    ensures GoDiv(a, b) >= t <==> a >= t * b
  {
    if a >= 0 {
      var q, rest := a / b, a % b;
      assert a == q * b + rest;
      if q >= t {
        Times(q, t, b);
      } else {
        Times(t, q + 1, b);
      }
    } else {
      DivNonNegative(-a, b);
      Times(t, 1, b);
    }
  }

  lemma Times(x: int, y: int, b: int)
    requires x >= y && b > 0
    ensures x * b >= y * b
  {
  }

  lemma DivNonNegative(a: nat, b: nat)
    requires b > 0
    ensures a / b >= 0
  {
  }

  /** Compaction is due, said without division. */
  lemma TriggerIff(current: int, limit: int, triggerPercent: int, force: bool)
    ensures ShouldTrigger(current, limit, triggerPercent, force) <==>
              force || (limit > 0 && triggerPercent > 0 && current * 100 >= triggerPercent * limit)
  {
    hide GoDiv;
    if limit > 0 && triggerPercent > 0 {
      GoDivAtLeast(current * 100, limit, triggerPercent);
    }
  }

  /** The target is met, said without division. */
  lemma TargetIff(total: int, limit: int, targetPercent: int)
    requires limit > 0
    ensures MeetsTarget(total, limit, targetPercent) <==>
              targetPercent <= 0 || total * 100 < (targetPercent + 1) * limit
  {
    hide GoDiv;
    if targetPercent > 0 {
      GoDivAtLeast(total * 100, limit, targetPercent + 1);
    }
  }

  // ----- Which entries are summarised -----

  predicate IsRealUser(d: EntryData) {
    && !d.synthetic
    && TrimSpace(d.role) == "user"
    && TrimSpace(d.kind) != SUMMARY_USER && TrimSpace(d.kind) != COMPACTION_USER
  }

  predicate IsProtected(d: EntryData) {
    TrimSpace(d.kind) == COMPACTION_USER && d.level == 2
  }

  predicate IsCandidate(d: EntryData) {
    !IsProtected(d) && 0 <= d.level <= 2
  }

  function Candidates(entries: seq<MemoryEntry>): seq<MemoryEntry> {
    if entries == [] then []
    else var last := entries[|entries| - 1];
         Candidates(entries[..|entries| - 1]) + if IsCandidate(last.data) then [last] else []
  }

  function Scope(scopePercent: int): int {
    if scopePercent <= 0 then 80 else scopePercent
  }

  /** The tokens a batch has to reach: the scope's share of all candidate tokens, at least one. */
  function BatchTarget(candidateTokens: nat, scopePercent: int): nat {
    var share := candidateTokens * Scope(scopePercent) / 100;
    if share <= 0 then 1 else share
  }

  /** A batch is the shortest run of oldest candidates that reaches the target. */
  ghost predicate IsBatch(entries: seq<MemoryEntry>, scopePercent: int, est: Estimate, batch: seq<MemoryEntry>) {
    var cands := Candidates(entries);
    var tokens := SumCounts(cands, est);
    var target := BatchTarget(tokens, scopePercent);
    && batch <= cands
    && (batch == [] <==> cands == [])
    && (cands != [] && tokens == 0 ==> |batch| == 1)
    && (tokens > 0 ==>
        && SumCounts(batch[..|batch| - 1], est) < target
        && (batch == cands || SumCounts(batch, est) >= target))
  }

  lemma {:induction false} SumCountsMonotone(entries: seq<MemoryEntry>, k: nat, est: Estimate)
    requires k <= |entries|
    ensures SumCounts(entries[..k], est) <= SumCounts(entries, est)
    decreases |entries|
  {
    if k == |entries| {
      assert entries[..k] == entries;
    } else {
      var init := entries[..|entries| - 1];
      SumCountsMonotone(init, k, est);
      assert init[..k] == entries[..k];
    }
  }

  /** There is only one batch. */
  lemma BatchUnique(entries: seq<MemoryEntry>, scopePercent: int, est: Estimate, a: seq<MemoryEntry>,
                    b: seq<MemoryEntry>)
    requires IsBatch(entries, scopePercent, est, a) && IsBatch(entries, scopePercent, est, b)
    ensures a == b
  {
    if |a| != |b| {
      var short, long := if |a| < |b| then a else b, if |a| < |b| then b else a;
      var cands := Candidates(entries);
      assert SumCounts(cands, est) > 0;
      var init := long[..|long| - 1];
      assert short == cands[..|short|] && init[..|short|] == cands[..|short|];
      SumCountsMonotone(init, |short|, est);
    }
  }

  method SelectL2BatchEntries(entries: seq<MemoryEntry>, l2ScopePercent: int,
                              est: Estimate)
    returns (batch: seq<MemoryEntry>)
    ensures IsBatch(entries, l2ScopePercent, est, batch)
    ensures batch == [] <==> Candidates(entries) == []
  {
    var scope := if l2ScopePercent <= 0 then 80 else l2ScopePercent;
    var candidates := CollectCandidates(entries);
    if |candidates| == 0 {
      return [];
    }
    var totalTokens := CountTokens(candidates, est);
    if totalTokens <= 0 {
      return [candidates[0]];
    }
    var target := totalTokens * scope / 100;
    if target <= 0 {
      target := 1;
    }
    batch := TakeUntil(candidates, target, est);
  }

  method CollectCandidates(entries: seq<MemoryEntry>) returns (candidates: seq<MemoryEntry>)
    ensures candidates == Candidates(entries)
  {
    candidates := [];
    ghost var done: seq<MemoryEntry> := [];
    for i := 0 to |entries|
      invariant done == entries[..i] && candidates == Candidates(done)
    {
      assert (done + [entries[i]])[..i] == done;
      done := done + [entries[i]];
      if IsCandidate(entries[i].data) {
        candidates := candidates + [entries[i]];
      }
    }
    assert done == entries;
  }

  method CountTokens(entries: seq<MemoryEntry>, est: Estimate) returns (total: nat)
    ensures total == SumCounts(entries, est)
  {
    total := 0;
    ghost var done: seq<MemoryEntry> := [];
    for i := 0 to |entries|
      invariant done == entries[..i] && total == SumCounts(done, est)
    {
      assert (done + [entries[i]])[..i] == done;
      done := done + [entries[i]];
      total := total + CountOf(entries[i], est);
    }
    assert done == entries;
  }

  /** The oldest candidates, until their tokens reach the target. */
  method TakeUntil(candidates: seq<MemoryEntry>, target: nat, est: Estimate) returns (selected: seq<MemoryEntry>)
    requires candidates != [] && target > 0
    ensures selected <= candidates && selected != []
    ensures SumCounts(selected[..|selected| - 1], est) < target
    ensures selected == candidates || SumCounts(selected, est) >= target
  {
    selected := [];
    var accumulated, i := 0, 0;
    while i < |candidates|
      invariant 0 <= i <= |candidates| && selected == candidates[..i] && accumulated == SumCounts(selected, est)
      invariant accumulated < target
      invariant i > 0 ==> SumCounts(selected[..i - 1], est) < target
    {
      ghost var before := selected;
      selected := selected + [candidates[i]];
      accumulated := accumulated + CountOf(candidates[i], est);
      i := i + 1;
      assert selected[..i - 1] == before;
      if accumulated >= target {
        break;
      }
    }
  }

  method FindLastRealUserEntry(entries: seq<MemoryEntry>) returns (user: MemoryEntry?, ghost at: int)
    ensures user == null <==> forall i :: 0 <= i < |entries| ==> !IsRealUser(entries[i].data)
    ensures user != null ==> LastRealUserAt(entries, at) && entries[at] == user
  {
    at := |entries|;
    var index := |entries| - 1;
    while index >= 0
      invariant -1 <= index < |entries|
      invariant forall i :: index < i < |entries| ==> !IsRealUser(entries[i].data)
    {
      if IsRealUser(entries[index].data) {
        at := index;
        return entries[index], at;
      }
      index := index - 1;
    }
    return null, at;
  }

  ghost predicate LastRealUserAt(entries: seq<MemoryEntry>, at: int) {
    && 0 <= at < |entries| && IsRealUser(entries[at].data)
    && forall i :: at < i < |entries| ==> !IsRealUser(entries[i].data)
  }

  predicate BatchContainsID(batch: seq<MemoryEntry>, id: nat) {
    id != 0 && exists i :: 0 <= i < |batch| && batch[i].data.id == id
  }

  method BatchContainsEntryID(batch: seq<MemoryEntry>, id: nat) returns (found: bool)
    ensures found == BatchContainsID(batch, id)
  {
    if id == 0 {
      return false;
    }
    for i := 0 to |batch|
      invariant forall j :: 0 <= j < i ==> batch[j].data.id != id
    {
      if batch[i].data.id == id {
        return true;
      }
    }
    return false;
  }

  // ----- Replacing a batch -----

  /** The span that goes: from the first to the last entry of the batch, with everything in between. */
  ghost predicate SpanOf(entries: seq<MemoryEntry>, batch: seq<MemoryEntry>, first: int, last: int) {
    && 0 <= first <= last < |entries|
    && entries[first] in batch && entries[last] in batch
    && (forall i :: 0 <= i < first ==> entries[i] !in batch)
    && (forall i :: last < i < |entries| ==> entries[i] !in batch)
  }

  method ReplaceEntryBatch(entries: seq<MemoryEntry>, batch: seq<MemoryEntry>, replacement: seq<MemoryEntry>)
    returns (out: seq<MemoryEntry>, ghost first: int, ghost last: int)
    ensures (forall i :: 0 <= i < |entries| ==> entries[i] !in batch) ==> out == entries
    ensures (exists i :: 0 <= i < |entries| && entries[i] in batch) ==>
              SpanOf(entries, batch, first, last) && out == entries[..first] + replacement + entries[last + 1..]
  {
    first, last := -1, -1;
    if |batch| == 0 {
      return entries, first, last;
    }
    var batchSet := set e | e in batch;
    var firstIndex := -1;
    var index := 0;
    while index < |entries|
      invariant 0 <= index <= |entries|
      invariant forall i :: 0 <= i < index ==> entries[i] !in batch
    {
      if entries[index] in batchSet {
        firstIndex := index;
        break;
      }
      index := index + 1;
    }
    if firstIndex < 0 {
      return entries, first, last;
    }
    var lastIndex := firstIndex;
    index := firstIndex;
    while index < |entries|
      invariant firstIndex <= lastIndex < |entries| && firstIndex <= index <= |entries|
      invariant entries[lastIndex] in batch && forall i :: lastIndex < i < index ==> entries[i] !in batch
    {
      if entries[index] in batchSet {
        lastIndex := index;
      }
      index := index + 1;
    }
    first, last := firstIndex, lastIndex;
    out := entries[..firstIndex] + replacement + entries[lastIndex + 1..];
  }

  // ----- What a batch is replaced by -----

  function WithEstimate(d: EntryData, est: Estimate): EntryData {
    d.(tokenCount := est(d.(tokenCount := 0)))
  }

  function PreservedData(sessionID: string, source: EntryData, level: int, sequence: int, created: int,
                         est: Estimate): EntryData {
    WithEstimate(EntryData(0, sessionID, source.sourceMessageID, source.sourcePartID, COMPACTION_USER, "user",
                           TrimSpace(source.content), false, level, sequence, created, 0), est)
  }

  function SummaryData(sessionID: string, kind: string, role: string, content: string, sequence: int, created: int,
                       est: Estimate): EntryData {
    WithEstimate(EntryData(0, sessionID, "", "", kind, role, content, true, 2, sequence, created, 0), est)
  }

  /** A summary question, the summary, and a copy of the preserved user entry if there is one. */
  function ReplacementData(sessionID: string, oldest: EntryData, summary: string, preserved: Option<EntryData>,
                           est: Estimate): seq<EntryData> {
    var from, at := oldest.sequence, oldest.created;
    [SummaryData(sessionID, SUMMARY_USER, "user", SUMMARY_PROMPT, from, at, est),
     SummaryData(sessionID, SUMMARY_ASSISTANT, "assistant", TrimSpace(summary), from + 1, at + 1, est)]
    + if preserved.None? then [] else [PreservedData(sessionID, preserved.value, 2, from + 2, at + 2, est)]
  }

  function Datas(entries: seq<MemoryEntry>): (ds: seq<EntryData>)
    ensures |ds| == |entries| && forall i :: 0 <= i < |ds| ==> ds[i] == entries[i].data
  {
    seq(|entries|, i requires 0 <= i < |entries| => entries[i].data)
  }

  ghost predicate Distinct(entries: seq<MemoryEntry>) {
    forall i, j :: 0 <= i < j < |entries| ==> entries[i] != entries[j]
  }

  method BuildLevel2ReplacementEntries(sessionID: string, batch: seq<MemoryEntry>, summary: string,
                                       preservedUser: MemoryEntry?, est: Estimate)
    returns (replacement: seq<MemoryEntry>)
    requires batch != []
    ensures forall i :: 0 <= i < |replacement| ==> fresh(replacement[i])
    ensures Distinct(replacement)
    ensures Datas(replacement) ==
            ReplacementData(sessionID, batch[0].data, summary,
                            if preservedUser == null then None else Some(preservedUser.data), est)
  {
    var startSequence, startCreated := batch[0].data.sequence, batch[0].data.created;
    var summaryUser := new MemoryEntry(SummaryData(sessionID, SUMMARY_USER, "user", SUMMARY_PROMPT, startSequence,
                                                   startCreated, est));
    var summaryAssistant := new MemoryEntry(
      SummaryData(sessionID, SUMMARY_ASSISTANT, "assistant", TrimSpace(summary), startSequence + 1, startCreated + 1,
                  est));
    replacement := [summaryUser, summaryAssistant];
    if preservedUser != null {
      var preserved := new MemoryEntry(PreservedData(sessionID, preservedUser.data, 2, startSequence + 2,
                                                     startCreated + 2, est));
      replacement := replacement + [preserved];
    }
  }

  // ----- One compaction step -----

  /** One round of the loop: the memory before and after it, what it chose and what it built. */
  datatype Round = Round(before: seq<MemoryEntry>, after: seq<MemoryEntry>, batch: seq<MemoryEntry>,
                         replacement: seq<MemoryEntry>,
                         first: int, last: int, user: Option<MemoryEntry>, summary: string)

  datatype Settings = Settings(sessionID: string, scopePercent: int, est: Estimate)

  /** Everything one round does to the memory. */
  ghost predicate Step(r: Round, s: Settings) {
    && IsBatch(r.before, s.scopePercent, s.est, r.batch) && r.batch != []
    && SpanOf(r.before, r.batch, r.first, r.last)
    && r.after == r.before[..r.first] + r.replacement + r.before[r.last + 1..]
    && IsLastRealUser(r.before, r.user)
    && Datas(r.replacement)
      == ReplacementData(s.sessionID, r.batch[0].data, r.summary, Preserved(r.user, r.batch), s.est)
    && Disjoint(r.replacement, r.before)
  }

  /** The question that stands in front of a summary, said on its fields. */
  ghost predicate IsQuestion(q: EntryData, from: int, at: int, s: Settings) {
    && q.role == "user" && q.kind == "summary_user" && q.content == "总结一下之前都做了什么。" && q.synthetic
    && q.id == 0 && q.level == 2 && q.sequence == from && q.created == at && q.sessionID == s.sessionID
    && q.tokenCount == s.est(q.(tokenCount := 0))
  }

  ghost predicate IsSummary(a: EntryData, text: string, from: int, at: int, s: Settings) {
    && a.role == "assistant" && a.kind == "summary_assistant" && a.content == TrimSpace(text) && a.synthetic
    && a.id == 0 && a.level == 2 && a.sequence == from + 1 && a.created == at + 1 && a.sessionID == s.sessionID
    && a.tokenCount == s.est(a.(tokenCount := 0))
  }

  ghost predicate IsCopyOf(c: EntryData, u: EntryData, from: int, at: int, s: Settings) {
    && c.role == "user" && c.kind == "compaction_user" && c.content == TrimSpace(u.content) && !c.synthetic
    && c.id == 0 && c.level == 2 && c.sequence == from + 2 && c.created == at + 2 && c.sessionID == s.sessionID
    && c.sourceMessageID == u.sourceMessageID && c.sourcePartID == u.sourcePartID
    && c.tokenCount == s.est(c.(tokenCount := 0))
  }

  /** What a step leaves where the span was: the question, the summary, and behind them a copy of the last user entry
      when its ID occurs in the batch. All are numbered from the oldest entry of the batch on. */
  lemma SummaryIsThere(r: Round, s: Settings)
    requires Step(r, s)
    ensures 0 <= r.first && r.first + 1 < |r.after|
    ensures |r.after| == |r.before| - (r.last - r.first + 1) +
              if r.user.Some? && r.user.value.data.id != 0
                 && exists i :: 0 <= i < |r.batch| && r.batch[i].data.id == r.user.value.data.id then 3 else 2
    ensures IsQuestion(r.after[r.first].data, r.batch[0].data.sequence, r.batch[0].data.created, s)
    ensures IsSummary(r.after[r.first + 1].data, r.summary, r.batch[0].data.sequence, r.batch[0].data.created, s)
    ensures r.user.Some? && r.user.value.data.id != 0
            && (exists i :: 0 <= i < |r.batch| && r.batch[i].data.id == r.user.value.data.id) ==>
              && r.first + 2 < |r.after|
              && IsCopyOf(r.after[r.first + 2].data, r.user.value.data, r.batch[0].data.sequence,
                          r.batch[0].data.created, s)
  {
    hide IsBatch, IsLastRealUser, TrimSpace;
    var ds := Datas(r.replacement);
    assert |ds| == |r.replacement|;
    assert forall i :: 0 <= i < |ds| ==> r.after[r.first + i] == r.replacement[i] && r.replacement[i].data == ds[i];
    assert r.after[r.first + 0] == r.replacement[0];
  }

  ghost predicate IsLastRealUser(entries: seq<MemoryEntry>, user: Option<MemoryEntry>) {
    && (user.None? <==> forall i :: 0 <= i < |entries| ==> !IsRealUser(entries[i].data))
    && (user.Some? ==> exists at :: LastRealUserAt(entries, at) && entries[at] == user.value)
  }

  /** The user entry to copy: the last real one, when its ID occurs in the batch. */
  function Preserved(user: Option<MemoryEntry>, batch: seq<MemoryEntry>): Option<EntryData> {
    if user.Some? && BatchContainsID(batch, user.value.data.id) then Some(user.value.data) else None
  }

  ghost predicate Disjoint(a: seq<MemoryEntry>, b: seq<MemoryEntry>) {
    forall i, j :: 0 <= i < |a| && 0 <= j < |b| ==> a[i] != b[j]
  }

  lemma {:induction false} TotalConcat(a: seq<MemoryEntry>, b: seq<MemoryEntry>)
    ensures Total(a + b) == Total(a) + Total(b)
    decreases |b|
  {
    if b == [] {
      assert a + b == a;
    } else {
      TotalConcat(a, b[..|b| - 1]);
      assert (a + b)[..|a + b| - 1] == a + b[..|b| - 1];
    }
  }

  /** The position of a candidate in the candidate list is the number of candidates before it. */
  lemma {:induction false} CandidateAt(entries: seq<MemoryEntry>, i: nat)
    requires i < |entries| && IsCandidate(entries[i].data)
    ensures var k := |Candidates(entries[..i])|;
            k < |Candidates(entries)| && Candidates(entries)[k] == entries[i]
    decreases |entries|
  {
    var n := |entries| - 1;
    var init := entries[..n];
    if i < n {
      CandidateAt(init, i);
      assert init[..i] == entries[..i];
      assert Candidates(init) <= Candidates(entries);
    } else {
      assert Candidates(entries) == Candidates(init) + [entries[n]];
    }
  }

  lemma {:induction false} CandidatesPrefix(entries: seq<MemoryEntry>, i: nat, j: nat)
    requires i <= j <= |entries|
    ensures Candidates(entries[..i]) <= Candidates(entries[..j])
    decreases j
  {
    if i < j {
      CandidatesPrefix(entries, i, j - 1);
      assert entries[..j][..j - 1] == entries[..j - 1];
    }
  }

  /** Entry `i` is the candidate number `k`. */
  ghost predicate IsKthCandidate(entries: seq<MemoryEntry>, k: nat, i: int) {
    && k < |Candidates(entries)| && 0 <= i < |entries|
    && entries[i] == Candidates(entries)[k] && IsCandidate(entries[i].data)
    && |Candidates(entries[..i])| == k
  }

  lemma {:induction false} CandidatesFrom(entries: seq<MemoryEntry>, k: nat)
    requires k < |Candidates(entries)|
    ensures exists i :: IsKthCandidate(entries, k, i)
    decreases |entries|
  {
    var n := |entries| - 1;
    var init := entries[..n];
    if k < |Candidates(init)| {
      CandidatesFrom(init, k);
      var i :| IsKthCandidate(init, k, i);
      assert init[..i] == entries[..i] && entries[i] == init[i];
      assert IsKthCandidate(entries, k, i);
    } else {
      assert IsKthCandidate(entries, k, n);
    }
  }

  // ----- The loop -----

  method CloneMemoryEntries(entries: seq<MemoryEntry?>) returns (out: seq<MemoryEntry>)
    ensures Datas(out) == NonNil(entries)
    ensures Distinct(out) && forall i :: 0 <= i < |out| ==> fresh(out[i])
  {
    out := [];
    ghost var done: seq<MemoryEntry?> := [];
    for i := 0 to |entries|
      invariant done == entries[..i] && Datas(out) == NonNil(done)
      invariant Distinct(out) && forall j :: 0 <= j < |out| ==> fresh(out[j])
    {
      assert (done + [entries[i]])[..i] == done;
      done := done + [entries[i]];
      if entries[i] != null {
        var c := new MemoryEntry(entries[i].data);
        out := out + [c];
      }
    }
    assert done == entries;
  }

  function NonNil(entries: seq<MemoryEntry?>): seq<EntryData> {
    if entries == [] then []
    else var last := entries[|entries| - 1];
         NonNil(entries[..|entries| - 1]) + if last == null then [] else [last.data]
  }

  function BatchEntryIDs(batch: seq<MemoryEntry>): seq<nat> {
    if batch == [] then [] else (if batch[0].data.id > 0 then [batch[0].data.id] else []) + BatchEntryIDs(batch[1..])
  }

  predicate LogSays(log: LevelLog, r: Round) {
    && r.batch != []
    && log.entryIDs == BatchEntryIDs(r.batch)
    && log.sequenceFrom == r.batch[0].data.sequence && log.sequenceTo == r.batch[|r.batch| - 1].data.sequence
    && log.beforeTokens == Total(r.before) && log.afterTokens == Total(r.after)
  }

  lemma DistinctAfter(entries: seq<MemoryEntry>, replacement: seq<MemoryEntry>, first: nat, last: nat)
    requires first <= last < |entries| && Distinct(entries) && Distinct(replacement) && Disjoint(replacement, entries)
    ensures Distinct(entries[..first] + replacement + entries[last + 1..])
  {
  }

  method SummariseOnce(entries: seq<MemoryEntry>, batch: seq<MemoryEntry>, summary: string, s: Settings)
    returns (out: seq<MemoryEntry>, log: LevelLog, ghost r: Round)
    requires Distinct(entries) && batch != [] && IsBatch(entries, s.scopePercent, s.est, batch)
    ensures Distinct(out) && r.before == entries && r.after == out && r.summary == summary
    ensures Step(r, s) && LogSays(log, r)
    ensures log.beforeTokens == Total(entries) && log.afterTokens == Total(out)
  {
    hide IsBatch, IsRealUser, SummaryData, PreservedData, BatchContainsID, Total, BatchEntryIDs;
    ghost var at;
    var lastUser;
    lastUser, at := FindLastRealUserEntry(entries);
    var preserveUser := false;
    if lastUser != null {
      preserveUser := BatchContainsEntryID(batch, lastUser.data.id);
    }
    ghost var user := if lastUser == null then None else Some(lastUser);
    var replacement := BuildLevel2ReplacementEntries(s.sessionID, batch, summary,
                                                     if preserveUser then lastUser else null, s.est);
    assert |Datas(replacement)| == |replacement|;
    assert Disjoint(replacement, entries);
    BatchOccurs(entries, batch, s.scopePercent, s.est);
    ghost var first, last;
    out, first, last := ReplaceEntryBatch(entries, batch, replacement);
    DistinctAfter(entries, replacement, first, last);
    log := LevelLog(BatchEntryIDs(batch), batch[0].data.sequence, batch[|batch| - 1].data.sequence, Total(entries),
                    Total(out));
    r := Round(entries, out, batch, replacement, first, last, user, summary);
  }

  lemma BatchOccurs(entries: seq<MemoryEntry>, batch: seq<MemoryEntry>, scope: int, est: Estimate)
    requires batch != [] && IsBatch(entries, scope, est, batch)
    ensures exists i :: 0 <= i < |entries| && entries[i] in batch
  {
    CandidatesFrom(entries, 0);
    var i :| IsKthCandidate(entries, 0, i);
    assert entries[i] == batch[0];
  }

  /** The summariser, asked for the `k`-th time; there may be none. */
  type Summarizer = Option<nat -> SummaryOutcome>

  function End(start: seq<MemoryEntry>, rounds: seq<Round>): seq<MemoryEntry> {
    if rounds == [] then start else rounds[|rounds| - 1].after
  }

  /** The rounds lead on from `start`: each met a memory above the target, got a usable summary, and is logged. */
  ghost predicate Explains(start: seq<MemoryEntry>, rounds: seq<Round>, logs: seq<LevelLog>, summarize: Summarizer,
                           limit: int, targetPercent: int, s: Settings)
  {
    if rounds == [] then logs == []
    else
      var k := |rounds| - 1;
      && |logs| == k + 1
      && RoundOk(rounds[k], logs[k], k, End(start, rounds[..k]), summarize, limit, targetPercent, s)
      && Explains(start, rounds[..k], logs[..k], summarize, limit, targetPercent, s)
  }

  ghost predicate RoundOk(r: Round, log: LevelLog, k: nat, before: seq<MemoryEntry>, summarize: Summarizer,
                          limit: int, targetPercent: int, s: Settings)
  {
    && r.before == before && Distinct(before)
    && !MeetsTarget(Total(before), limit, targetPercent)
    && summarize.Some? && summarize.value(k) == Summary(r.summary) && TrimSpace(r.summary) != ""
    && Step(r, s) && LogSays(log, r)
  }

  /** All of these rounds shrank the memory. */
  predicate AllShrink(logs: seq<LevelLog>) {
    logs == [] || (logs[|logs| - 1].afterTokens < logs[|logs| - 1].beforeTokens && AllShrink(logs[..|logs| - 1]))
  }

  lemma GoDivAbove(a: int, b: int, t: nat)
    requires b > 0 && GoDiv(a, b) > t
    ensures a > 0 && a >= (t + 1) * b
  {
    if a >= 0 {
      var q, rest := a / b, a % b;
      assert a == q * b + rest;
      Product(q, t + 1, b);
    } else {
      DivNonNegative(-a, b);
    }
  }

  lemma Product(q: nat, m: nat, b: nat)
    requires q >= m && m > 0 && b > 0
    ensures q * b >= m * b > 0
  {
  }

  lemma ExplainsSnoc(start: seq<MemoryEntry>, rounds: seq<Round>, logs: seq<LevelLog>, r: Round, log: LevelLog,
                     summarize: Summarizer, limit: int, targetPercent: int, s: Settings)
    requires Explains(start, rounds, logs, summarize, limit, targetPercent, s) && |rounds| == |logs|
    requires RoundOk(r, log, |logs|, End(start, rounds), summarize, limit, targetPercent, s)
    ensures Explains(start, rounds + [r], logs + [log], summarize, limit, targetPercent, s)
    ensures AllShrink((logs + [log])[..|logs|]) <==> AllShrink(logs)
    ensures AllShrink(logs) && log.afterTokens < log.beforeTokens ==> AllShrink(logs + [log])
  {
    hide RoundOk;
    assert (rounds + [r])[..|rounds|] == rounds && (logs + [log])[..|logs|] == logs;
  }

  /** What an `Explains` amounts to for one log and its successor: the logs chain. */
  lemma {:induction false} LogsChain(start: seq<MemoryEntry>, rounds: seq<Round>, logs: seq<LevelLog>,
                                     summarize: Summarizer, limit: int, targetPercent: int, s: Settings, j: nat)
    requires Explains(start, rounds, logs, summarize, limit, targetPercent, s) && j < |logs|
    ensures |rounds| == |logs| && Step(rounds[j], s) && LogSays(logs[j], rounds[j])
    ensures rounds[j].before == if j == 0 then start else rounds[j - 1].after
    ensures j > 0 ==> logs[j - 1].afterTokens == logs[j].beforeTokens
    decreases |rounds|
  {
    hide Step, Distinct, MeetsTarget;
    var k := |rounds| - 1;
    if j < k {
      LogsChain(start, rounds[..k], logs[..k], summarize, limit, targetPercent, s, j);
    } else if k > 0 {
      LogsChain(start, rounds[..k], logs[..k], summarize, limit, targetPercent, s, k - 1);
    }
  }

  /** Tokens fall by at least one in each round that shrinks. */
  lemma {:induction false} TokensFall(start: seq<MemoryEntry>, rounds: seq<Round>, logs: seq<LevelLog>,
                                      summarize: Summarizer, limit: int, targetPercent: int, s: Settings)
    requires Explains(start, rounds, logs, summarize, limit, targetPercent, s) && AllShrink(logs)
    ensures |rounds| == |logs| && Total(End(start, rounds)) <= Total(start) - |logs|
    decreases |rounds|
  {
    hide Step;
    if rounds != [] {
      var k := |rounds| - 1;
      TokensFall(start, rounds[..k], logs[..k], summarize, limit, targetPercent, s);
    }
  }

  /** Before each call the memory is still above the target, which bounds how often it can have shrunk. */
  lemma CallBound(start: seq<MemoryEntry>, rounds: seq<Round>, logs: seq<LevelLog>, summarize: Summarizer,
                  limit: int, targetPercent: int, s: Settings)
    requires limit > 0 && Explains(start, rounds, logs, summarize, limit, targetPercent, s) && AllShrink(logs)
    requires !MeetsTarget(Total(End(start, rounds)), limit, targetPercent)
    ensures Bounded(start, |logs| + 1, limit, targetPercent)
    ensures Total(End(start, rounds)) > 0
  {
    TokensFall(start, rounds, logs, summarize, limit, targetPercent, s);
    GoDivAbove(Total(End(start, rounds)) * 100, limit, targetPercent);
  }

  /** At the last of these calls the initial tokens, less one for each call before it, were still above the target. */
  predicate Bounded(start: seq<MemoryEntry>, calls: nat, limit: int, targetPercent: int) {
    calls > 0 ==> calls <= Total(start) && (Total(start) - (calls - 1)) * 100 >= (targetPercent + 1) * limit
  }

  /** The memory has an entry of the assistant with that summary. */
  ghost predicate HoldsSummary(entries: seq<MemoryEntry>, summary: string) {
    exists i :: 0 <= i < |entries| && entries[i].data.content == TrimSpace(summary)
                && entries[i].data.role == "assistant" && entries[i].data.kind == "summary_assistant"
  }

  /** What the last summary says is in the memory that the rounds lead to. */
  lemma SummaryIsKept(start: seq<MemoryEntry>, rounds: seq<Round>, logs: seq<LevelLog>, summarize: Summarizer,
                      limit: int, targetPercent: int, s: Settings)
    requires Explains(start, rounds, logs, summarize, limit, targetPercent, s)
    ensures rounds != [] ==> HoldsSummary(End(start, rounds), rounds[|rounds| - 1].summary)
    ensures |rounds| == |logs|
  {
    hide Step, Explains;
    if rounds != [] {
      var k := |rounds| - 1;
      SomeLogs(start, rounds, logs, summarize, limit, targetPercent, s);
      LogsChain(start, rounds, logs, summarize, limit, targetPercent, s, k);
      SummaryIsThere(rounds[k], s);
    } else {
      SomeLogs(start, rounds, logs, summarize, limit, targetPercent, s);
    }
  }

  lemma SomeLogs(start: seq<MemoryEntry>, rounds: seq<Round>, logs: seq<LevelLog>, summarize: Summarizer,
                 limit: int, targetPercent: int, s: Settings)
    requires Explains(start, rounds, logs, summarize, limit, targetPercent, s)
    ensures |rounds| == |logs|
  {
    hide RoundOk;
  }

  /** Why the loop may stop without an error. */
  predicate MayStop(entries: seq<MemoryEntry>, logs: seq<LevelLog>, summarize: Summarizer, limit: int,
                    targetPercent: int) {
    || MeetsTarget(Total(entries), limit, targetPercent)
    || summarize.None?
    || Candidates(entries) == []
    || (logs != [] && logs[|logs| - 1].afterTokens >= logs[|logs| - 1].beforeTokens)
  }

  /** The error a summariser's answer amounts to. */
  function ErrorOf(answer: SummaryOutcome): Option<string> {
    match answer
    case Failure(e) => Some(e)
    case Summary(text) => if TrimSpace(text) == "" then Some(EMPTY_SUMMARY) else None
  }

  method Loop(start: seq<MemoryEntry>, limit: int, targetPercent: int, summarize: Summarizer, s: Settings)
    returns (err: Option<string>, entries: seq<MemoryEntry>, logs: seq<LevelLog>, summary: string,
             ghost rounds: seq<Round>, ghost calls: nat)
    requires limit > 0 && Distinct(start)
    ensures Explains(start, rounds, logs, summarize, limit, targetPercent, s) && End(start, rounds) == entries
    ensures |rounds| == |logs|
    ensures logs != [] ==> AllShrink(logs[..|logs| - 1])
    // the calls: one for each round, and one more that failed or gave nothing
    ensures err.None? ==> calls == |logs| && MayStop(entries, logs, summarize, limit, targetPercent)
    ensures err.None? && rounds != [] ==> summary == rounds[|rounds| - 1].summary
    ensures err.Some? ==> calls == |logs| + 1 && summarize.Some? && err == ErrorOf(summarize.value(|logs|))
    ensures Bounded(start, calls, limit, targetPercent)
  {
    hide Step, IsBatch, LogSays, GoDiv, Candidates, Distinct;
    err, entries, logs, summary, rounds, calls := None, start, [], "", [], 0;
    while !MeetsTarget(Total(entries), limit, targetPercent)
      invariant Explains(start, rounds, logs, summarize, limit, targetPercent, s) && End(start, rounds) == entries
      invariant |rounds| == |logs|
      invariant err.None? && Distinct(entries) && AllShrink(logs) && calls == |logs|
      invariant rounds != [] ==> summary == rounds[|rounds| - 1].summary
      invariant Bounded(start, calls, limit, targetPercent)
      decreases Total(entries)
    {
      var batch := SelectL2BatchEntries(entries, s.scopePercent, s.est);
      if |batch| == 0 || summarize.None? {
        break;
      }
      CallBound(start, rounds, logs, summarize, limit, targetPercent, s);
      calls := calls + 1;
      var answer := summarize.value(|logs|);
      err := ErrorOf(answer);
      if err.Some? {
        break;
      }
      summary := answer.text;
      var log;
      ghost var r;
      ghost var logs0, rounds0 := logs, rounds;
      entries, log, r := SummariseOnce(entries, batch, summary, s);
      logs, rounds := logs + [log], rounds + [r];
      ExplainsSnoc(start, rounds0, logs0, r, log, summarize, limit, targetPercent, s);
      if log.afterTokens >= log.beforeTokens {
        break;
      }
    }
  }

  method RunGraduatedMemoryCompaction(input: seq<MemoryEntry?>, limit: int, current: int, config: Config,
                                      summarize: Summarizer, sessionID: string, est: Estimate)
    returns (result: Outcome, ghost start: seq<MemoryEntry>, ghost rounds: seq<Round>, ghost calls: nat)
    // whether it runs at all
    ensures |input| == 0 ==> result == Skipped("empty_entries", [], 0)
    ensures |input| > 0 && limit <= 0 ==> result == Skipped("missing_limit", [], 0)
    ensures |input| > 0 && limit > 0 ==> Datas(start) == NonNil(input) && Distinct(start)
    ensures |input| > 0 && limit > 0 ==>
              var tokens := if current > 0 then current else Total(start);
              if ShouldTrigger(tokens, limit, config.triggerPercent, config.force)
              then !result.Skipped?
              else result == Skipped("below_trigger_threshold", start, tokens)
    ensures |input| > 0 && limit > 0 ==>
              var tokens := if current > 0 then current else Total(start);
              (result.Skipped? <==>
               !config.force && (config.triggerPercent <= 0 || tokens * 100 < config.triggerPercent * limit))
    // what it did, call by call
    ensures result.Compacted? ==>
            calls == |result.logs| && End(start, rounds) == result.entries
              && result.afterTokens == Total(result.entries)
    ensures result.Compacted? ==>
            Explains(start, rounds, result.logs, summarize, limit, config.targetPercent,
                         Settings(sessionID, config.scopePercent, est))
    ensures result.Compacted? && result.logs != [] ==>
            AllShrink(result.logs[..calls - 1]) && result.summary == rounds[calls - 1].summary
    ensures result.Compacted? ==> result.beforeTokens == if current > 0 then current else Total(start)
    ensures result.Compacted? ==> result.levels == (if result.logs == [] then [] else [2])
    ensures result.Compacted? && result.logs != [] ==> HoldsSummary(result.entries, result.summary)
    ensures result.Compacted? ==> MayStop(result.entries, result.logs, summarize, limit, config.targetPercent)
    ensures result.Failed? ==> calls > 0 && summarize.Some? && ErrorOf(summarize.value(calls - 1)) == Some(result.err)
    // it terminates for every summariser, and calls it at most this often
    ensures if result.Skipped? then calls == 0 else Bounded(start, calls, limit, config.targetPercent)
  {
    hide Explains, Bounded, MayStop, AllShrink, HoldsSummary, ShouldTrigger;
    start, rounds, calls := [], [], 0;
    if |input| == 0 {
      return Skipped("empty_entries", [], 0), start, rounds, calls;
    }
    if limit <= 0 {
      return Skipped("missing_limit", [], 0), start, rounds, calls;
    }
    var entries := CloneMemoryEntries(input);
    start := entries;
    var currentTokens := current;
    if currentTokens <= 0 {
      currentTokens := Total(entries);
    }
    TriggerIff(currentTokens, limit, config.triggerPercent, config.force);
    if !ShouldTrigger(currentTokens, limit, config.triggerPercent, config.force) {
      return Skipped("below_trigger_threshold", entries, currentTokens), start, rounds, calls;
    }
    var err, logs, summary;
    var s := Settings(sessionID, config.scopePercent, est);
    err, entries, logs, summary, rounds, calls := Loop(entries, limit, config.targetPercent, summarize, s);
    if err.Some? {
      return Failed(err.value), start, rounds, calls;
    }
    SummaryIsKept(start, rounds, logs, summarize, limit, config.targetPercent, s);
    var levels := if |logs| > 0 then [2] else [];
    result := Compacted(entries, levels, logs, summary, currentTokens, Total(entries));
  }
}

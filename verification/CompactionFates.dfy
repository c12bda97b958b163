/** agent/session/memory_compaction_levels.go: what one compaction step does to the tokens, and to each entry, said
    on the memory before the step. */
module CompactionFates {
  import opened GoStrings
  import opened MemoryCompaction

  /** Conservation: a step exchanges the tokens of the span for those of the replacement. */
  lemma StepTokens(r: Round, s: Settings)
    requires Step(r, s)
    ensures Total(r.after) == Total(r.before) - Total(r.before[r.first..r.last + 1]) + Total(r.replacement)
  {
    hide IsBatch, IsLastRealUser, ReplacementData, Preserved, Disjoint, Total;
    Exchange(r.before, r.replacement, r.first, r.last);
  }

  lemma Exchange(entries: seq<MemoryEntry>, replacement: seq<MemoryEntry>, first: nat, last: nat)
    requires first <= last < |entries|
    ensures Total(entries[..first] + replacement + entries[last + 1..]) ==
            Total(entries) - Total(entries[first..last + 1]) + Total(replacement)
  {
    hide Total;
    var front, span, back := entries[..first], entries[first..last + 1], entries[last + 1..];
    TotalConcat(front + replacement, back);
    TotalConcat(front, replacement);
    TotalConcat(front + span, back);
    TotalConcat(front, span);
    assert front + span + back == entries;
  }

  // ----- Which candidates are in the batch -----

  /** The number of candidates in front of an entry. */
  function Ahead(entries: seq<MemoryEntry>, i: nat): nat
    requires i <= |entries|
  {
    |Candidates(entries[..i])|
  }

  lemma CandidatesFront(entries: seq<MemoryEntry>, i: nat)
    requires i <= |entries|
    ensures Ahead(entries, i) <= |Candidates(entries)|
    ensures Candidates(entries[..i]) == Candidates(entries)[..Ahead(entries, i)]
  {
    hide IsCandidate;
    CandidatesPrefix(entries, i, |entries|);
    assert entries[..|entries|] == entries;
  }

  /** Candidate `k` is in the batch exactly when it is the first, or the candidates in front of it fall short of the
      target. */
  lemma InBatchIff(entries: seq<MemoryEntry>, scope: int, est: Estimate, batch: seq<MemoryEntry>, k: nat)
    requires IsBatch(entries, scope, est, batch) && k < |Candidates(entries)|
    ensures var cands := Candidates(entries);
            var tokens := SumCounts(cands, est);
            k < |batch| <==> k == 0 || (tokens > 0 && SumCounts(cands[..k], est) < BatchTarget(tokens, scope))
  {
    hide BatchTarget, Candidates, SumCounts;
    var cands := Candidates(entries);
    if SumCounts(cands, est) > 0 {
      if k < |batch| {
        var init := batch[..|batch| - 1];
        assert init[..k] == cands[..k];
        SumCountsMonotone(init, k, est);
      } else {
        assert cands[..k][..|batch|] == batch;
        SumCountsMonotone(cands[..k], |batch|, est);
      }
    }
  }

  // ----- Where the span begins and ends -----

  lemma MoreAhead(entries: seq<MemoryEntry>, i: nat, j: nat)
    requires i <= j <= |entries|
    ensures Ahead(entries, i) <= Ahead(entries, j)
    ensures i < |entries| ==> Ahead(entries, i + 1) == Ahead(entries, i) + if IsCandidate(entries[i].data) then 1 else 0
  {
    hide IsCandidate;
    CandidatesPrefix(entries, i, j);
    if i < |entries| {
      assert entries[..i + 1][..i] == entries[..i];
    }
  }

  /** An entry of the batch is the candidate whose number is the number of candidates in front of it. */
  lemma BatchEntryAt(entries: seq<MemoryEntry>, batch: seq<MemoryEntry>, i: nat)
    requires Distinct(entries) && batch <= Candidates(entries) && i < |entries|
    ensures entries[i] in batch <==> IsCandidate(entries[i].data) && Ahead(entries, i) < |batch|
  {
    hide IsCandidate, Candidates;
    if IsCandidate(entries[i].data) {
      CandidateAt(entries, i);
      if Ahead(entries, i) < |batch| {
        assert batch[Ahead(entries, i)] == entries[i];
      }
    }
    if entries[i] in batch {
      var k :| 0 <= k < |batch| && batch[k] == entries[i];
      CandidatesFrom(entries, k);
      var l :| IsKthCandidate(entries, k, l);
      assert l == i;
    }
  }

  /** The span, without its ends: entries of the batch, and whatever stands between candidates of the batch. */
  lemma InSpanIff(entries: seq<MemoryEntry>, batch: seq<MemoryEntry>, first: nat, last: nat, i: nat)
    requires Distinct(entries) && batch <= Candidates(entries) && SpanOf(entries, batch, first, last) && i < |entries|
    ensures first <= i <= last <==>
            Ahead(entries, i) < |batch| && (IsCandidate(entries[i].data) || Ahead(entries, i) > 0)
  {
    hide IsCandidate, Candidates;
    BatchEntryAt(entries, batch, i);
    BatchEntryAt(entries, batch, first);
    BatchEntryAt(entries, batch, last);
    if i < first {
      MoreAhead(entries, i, first);
      FirstAhead(entries, batch, first);
    } else if i > last {
      MoreAhead(entries, last, i);
      MoreAhead(entries, last + 1, i);
      LastAhead(entries, batch, last);
    } else {
      MoreAhead(entries, i, last);
      if first < i {
        MoreAhead(entries, first, i);
        MoreAhead(entries, first + 1, i);
      }
    }
  }

  lemma FirstAhead(entries: seq<MemoryEntry>, batch: seq<MemoryEntry>, first: nat)
    requires Distinct(entries) && batch <= Candidates(entries) && first < |entries| && entries[first] in batch
    requires forall i :: 0 <= i < first ==> entries[i] !in batch
    ensures Ahead(entries, first) == 0
  {
    hide IsCandidate, Candidates;
    CandidatesFrom(entries, 0);
    var p :| IsKthCandidate(entries, 0, p);
    assert entries[p] == batch[0];
    MoreAhead(entries, first, p);
  }

  lemma LastAhead(entries: seq<MemoryEntry>, batch: seq<MemoryEntry>, last: nat)
    requires Distinct(entries) && batch <= Candidates(entries) && last < |entries| && entries[last] in batch
    requires forall i :: last < i < |entries| ==> entries[i] !in batch
    ensures Ahead(entries, last) == |batch| - 1
  {
    hide IsCandidate, Candidates;
    BatchEntryAt(entries, batch, last);
    var k := |batch| - 1;
    CandidatesFrom(entries, k);
    var p :| IsKthCandidate(entries, k, p);
    assert entries[p] == batch[k];
    MoreAhead(entries, p, last);
  }

  // ----- What becomes of an entry -----

  /** An entry outlives a step exactly when it stands outside the span, whatever it is. */
  lemma OutsideSpan(r: Round, s: Settings, i: nat)
    requires Distinct(r.before) && i < |r.before| && Step(r, s)
    ensures r.before[i] in r.after <==> i < r.first || i > r.last
  {
    hide IsBatch, IsLastRealUser, ReplacementData, Preserved;
    if i < r.first {
      assert r.after[i] == r.before[i];
    } else if i > r.last {
      assert r.after[r.first + |r.replacement| + (i - r.last - 1)] == r.before[i];
    } else {
      forall k | 0 <= k < |r.after|
        ensures r.after[k] != r.before[i]
      {
        if k < r.first {
          assert r.after[k] == r.before[k];
        } else if k < r.first + |r.replacement| {
          assert r.after[k] == r.replacement[k - r.first];
        } else {
          assert r.after[k] == r.before[r.last + 1 + (k - r.first - |r.replacement|)];
        }
      }
    }
  }

  /** A step on this memory drops entry `i`: it is the first candidate; or there is a candidate in front of it, one at
      its place or behind it, and the candidates in front fall short of the target, the scope's share of all
      candidate tokens. Whether the entry is protected does not matter. */
  predicate Dropped(entries: seq<MemoryEntry>, i: nat, scope: int, est: Estimate)
    requires i < |entries|
  {
    var cands, front := Candidates(entries), Candidates(entries[..i]);
    var tokens := SumCounts(cands, est);
    if front == [] then IsCandidate(entries[i].data)
    else |front| < |cands| && tokens > 0 && SumCounts(front, est) < BatchTarget(tokens, scope)
  }

  lemma AheadAtMost(entries: seq<MemoryEntry>, i: nat)
    requires i < |entries|
    ensures Ahead(entries, i) <= |Candidates(entries)|
    ensures IsCandidate(entries[i].data) ==> Ahead(entries, i) < |Candidates(entries)|
  {
    hide IsCandidate, Candidates;
    MoreAhead(entries, i, |entries|);
    MoreAhead(entries, i + 1, |entries|);
    assert entries[..|entries|] == entries;
  }

  /** Exactly which entries a step drops, said on the memory before it. */
  lemma StepKeeps(r: Round, s: Settings, i: nat)
    requires Distinct(r.before) && i < |r.before| && Step(r, s)
    ensures r.before[i] !in r.after <==> Dropped(r.before, i, s.scopePercent, s.est)
  {
    hide IsCandidate, Candidates, SumCounts, BatchTarget, IsLastRealUser, ReplacementData, Preserved;
    OutsideSpan(r, s, i);
    BatchIsFront(r.before, s.scopePercent, s.est, r.batch);
    InSpanIff(r.before, r.batch, r.first, r.last, i);
    CandidatesFront(r.before, i);
    AheadAtMost(r.before, i);
    if Ahead(r.before, i) < |Candidates(r.before)| {
      InBatchIff(r.before, s.scopePercent, s.est, r.batch, Ahead(r.before, i));
    }
  }

  lemma BatchIsFront(entries: seq<MemoryEntry>, scope: int, est: Estimate, batch: seq<MemoryEntry>)
    requires IsBatch(entries, scope, est, batch)
    ensures batch <= Candidates(entries)
  {
  }

  // ----- The last user entry -----

  /** A copy of the user's words among the replacement entries. */
  predicate CopiedTo(user: EntryData, replacement: seq<EntryData>) {
    && |replacement| == 3 && replacement[2].kind == COMPACTION_USER && replacement[2].role == "user"
    && replacement[2].content == TrimSpace(user.content) && replacement[2].sourceMessageID == user.sourceMessageID
  }

  /** Inside the span, every candidate belongs to the batch: the batch is a run of oldest candidates. */
  lemma CandidateInSpanIsInBatch(entries: seq<MemoryEntry>, batch: seq<MemoryEntry>, first: nat, last: nat, i: nat)
    requires Distinct(entries) && batch <= Candidates(entries)
    requires SpanOf(entries, batch, first, last) && i <= last && IsCandidate(entries[i].data)
    ensures entries[i] in batch
  {
    hide IsCandidate, Candidates;
    BatchEntryAt(entries, batch, i);
    BatchEntryAt(entries, batch, last);
    MoreAhead(entries, i, last);
  }

  /** What becomes of the last real user entry, exactly: whether it is dropped, and that it is copied when its ID is
      positive and occurs in the batch. When it is dropped and not copied it is gone. */
  lemma LastUserFate(r: Round, s: Settings, at: nat)
    requires Distinct(r.before) && LastRealUserAt(r.before, at) && Step(r, s)
    ensures r.user == Some(r.before[at])
    ensures r.before[at] !in r.after <==> Dropped(r.before, at, s.scopePercent, s.est)
    ensures CopiedTo(r.before[at].data, Datas(r.replacement)) <==> BatchContainsID(r.batch, r.before[at].data.id)
  {
    hide IsBatch, SpanOf, Dropped, TrimSpace, SumCounts;
    StepKeeps(r, s, at);
    TheLastUser(r.before, r.user, at);
    ReplacedBy(s.sessionID, r.batch[0].data, r.summary, Preserved(r.user, r.batch), s.est);
  }

  lemma TheLastUser(entries: seq<MemoryEntry>, user: Option<MemoryEntry>, at: nat)
    requires LastRealUserAt(entries, at) && IsLastRealUser(entries, user)
    ensures user == Some(entries[at])
  {
    hide IsRealUser;
  }

  lemma ReplacedBy(sessionID: string, oldest: EntryData, summary: string, preserved: Option<EntryData>, est: Estimate)
    ensures var d := ReplacementData(sessionID, oldest, summary, preserved, est);
            && |d| == (if preserved.Some? then 3 else 2)
            && (preserved.Some? ==> CopiedTo(preserved.value, d))
  {
    hide TrimSpace;
  }

  /** So a last real user entry with a positive ID and a compression level of 0 to 2 never gets lost in a step. */
  lemma LastUserSurvives(r: Round, s: Settings, at: nat)
    requires Distinct(r.before) && LastRealUserAt(r.before, at) && Step(r, s)
    requires r.before[at].data.id > 0 && 0 <= r.before[at].data.level <= 2
    ensures r.before[at] in r.after
            || (CopiedTo(r.before[at].data, Datas(r.replacement)) && r.replacement[2] in r.after)
  {
    hide ReplacementData, SumCounts, BatchTarget, TrimSpace, Dropped, Candidates;
    LastUserFate(r, s, at);
    OutsideSpan(r, s, at);
    if r.before[at] !in r.after {
      UsersAreCandidates(r.before[at].data);
      BatchIsFront(r.before, s.scopePercent, s.est, r.batch);
      CandidateInSpanIsInBatch(r.before, r.batch, r.first, r.last, at);
      var k :| 0 <= k < |r.batch| && r.batch[k] == r.before[at];
      assert r.batch[k].data.id == r.before[at].data.id;
      assert |r.replacement| == |Datas(r.replacement)|;
      assert r.after[r.first + 2] == r.replacement[2];
    }
  }

  lemma UsersAreCandidates(d: EntryData)
    requires IsRealUser(d) && 0 <= d.level <= 2
    ensures IsCandidate(d)
  {
    hide TrimSpace;
  }

  // ----- The copy is not safe for ever -----

  /** A protected entry, such as the copy of the user's words, is dropped exactly when candidates stand in front of it
      and behind it and those in front fall short of the target. */
  lemma ProtectedDroppedIff(r: Round, s: Settings, i: nat)
    requires Distinct(r.before) && i < |r.before| && IsProtected(r.before[i].data) && Step(r, s)
    ensures var cands, front, back := Candidates(r.before), Candidates(r.before[..i]), Candidates(r.before[i + 1..]);
            r.before[i] !in r.after <==>
              front != [] && back != [] && SumCounts(cands, s.est) > 0
              && SumCounts(front, s.est) < BatchTarget(SumCounts(cands, s.est), s.scopePercent)
  {
    hide Candidates, SumCounts, BatchTarget, Step, TrimSpace;
    StepKeeps(r, s, i);
    CandidatesAround(r.before, i);
  }

  lemma CandidatesAround(entries: seq<MemoryEntry>, i: nat)
    requires i < |entries|
    ensures Candidates(entries) ==
            Candidates(entries[..i]) + (if IsCandidate(entries[i].data) then [entries[i]] else [])
              + Candidates(entries[i + 1..])
  {
    hide IsCandidate;
    CandidatesConcat(entries[..i + 1], entries[i + 1..]);
    assert entries == entries[..i + 1] + entries[i + 1..] && entries[..i + 1][..i] == entries[..i];
  }

  lemma {:induction false} CandidatesConcat(a: seq<MemoryEntry>, b: seq<MemoryEntry>)
    ensures Candidates(a + b) == Candidates(a) + Candidates(b)
    decreases |b|
  {
    hide IsCandidate;
    if b == [] {
      assert a + b == a;
    } else {
      var n := |b| - 1;
      CandidatesConcat(a, b[..n]);
      assert (a + b)[..|a + b| - 1] == a + b[..n];
      Assoc(Candidates(a), Candidates(b[..n]), if IsCandidate(b[n].data) then [b[n]] else []);
    }
  }

  /** It happens: two candidates of 100 tokens around one protected copy, all summarised at once, and no other copy
      is made. */
  lemma CopyCanBeLost(a: MemoryEntry, copy: MemoryEntry, b: MemoryEntry, r: Round, s: Settings)
    requires IsCandidate(a.data) && !IsRealUser(a.data) && IsCandidate(b.data) && !IsRealUser(b.data)
    requires a.data.tokenCount == b.data.tokenCount == 100
    requires IsProtected(copy.data)
    requires a != b && a != copy && b != copy
    requires r.before == [a, copy, b] && Step(r, s) && s.scopePercent == 100
    ensures copy !in r.after && |r.replacement| == 2
  {
    hide Candidates, SumCounts, TrimSpace, Step, IsCandidate, IsRealUser;
    ProtectedDroppedIff(r, s, 1);
    assert r.before[..1] == [a] && r.before[2..] == [b];
    OneCandidate(a, s.est);
    OneCandidate(b, s.est);
    NoCandidate(copy.data);
    CandidatesAround(r.before, 1);
    assert [a] + [] + [b] == [a, b];
    TwoCounts(a, b, s.est);
    NoUserNoCopy(r, s);
  }

  lemma NoCandidate(d: EntryData)
    requires IsProtected(d)
    ensures !IsCandidate(d) && !IsRealUser(d)
  {
  }

  lemma NoUserNoCopy(r: Round, s: Settings)
    requires Step(r, s) && forall i :: 0 <= i < |r.before| ==> !IsRealUser(r.before[i].data)
    ensures |r.replacement| == 2
  {
    hide IsBatch, SpanOf, IsRealUser, SummaryData;
    assert |Datas(r.replacement)| == |r.replacement|;
  }

  lemma OneCandidate(e: MemoryEntry, est: Estimate)
    requires IsCandidate(e.data) && e.data.tokenCount == 100
    ensures Candidates([e]) == [e] && SumCounts([e], est) == 100
  {
    hide IsCandidate;
    assert [e][..0] == [];
  }

  lemma TwoCounts(a: MemoryEntry, b: MemoryEntry, est: Estimate)
    requires a.data.tokenCount == b.data.tokenCount == 100
    ensures SumCounts([a, b], est) == 200
  {
    assert [a, b][..1] == [a] && [a][..0] == [];
    assert SumCounts([a], est) == 100;
  }
}

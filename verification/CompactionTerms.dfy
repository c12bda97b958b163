/** agent/session/memory_compaction_levels.go: what a compaction does, said in the fields of the entries and in
    plain numbers. */
module CompactionTerms {
  import opened GoStrings
  import opened MemoryCompaction
  import opened CompactionFates

  /** A level that can be summarised, and no copy of a user's words. */
  predicate MayGo(d: EntryData) {
    0 <= d.level <= 2 && !(TrimSpace(d.kind) == "compaction_user" && d.level == 2)
  }

  predicate UserWrote(d: EntryData) {
    && !d.synthetic && TrimSpace(d.role) == "user"
    && TrimSpace(d.kind) != "summary_user" && TrimSpace(d.kind) != "compaction_user"
  }

  lemma MayGoIff(d: EntryData)
    ensures MayGo(d) <==> IsCandidate(d)
    ensures UserWrote(d) <==> IsRealUser(d)
  {
    hide TrimSpace;
  }

  /** A step takes only entries that may go; none that may go stands in front of its span, and inside the span all of
      them are taken. */
  lemma BatchIs(r: Round, s: Settings)
    requires Distinct(r.before) && Step(r, s)
    ensures forall i :: 0 <= i < |r.batch| ==> MayGo(r.batch[i].data)
    ensures forall i :: 0 <= i < r.first ==> !MayGo(r.before[i].data)
    ensures forall i :: r.first <= i <= r.last && MayGo(r.before[i].data) ==> r.before[i] in r.batch
  {
    hide IsCandidate, Candidates, IsLastRealUser, ReplacementData, Preserved, MayGo, SumCounts, BatchTarget;
    BatchIsFront(r.before, s.scopePercent, s.est, r.batch);
    forall i | 0 <= i < |r.batch|
      ensures MayGo(r.batch[i].data)
    {
      CandidatesFrom(r.before, i);
      var p :| IsKthCandidate(r.before, i, p);
      MayGoIff(r.batch[i].data);
    }
    forall i | 0 <= i < r.first
      ensures !MayGo(r.before[i].data)
    {
      FirstAhead(r.before, r.batch, r.first);
      MoreAhead(r.before, i, r.first);
      MoreAhead(r.before, i + 1, r.first);
      MayGoIff(r.before[i].data);
    }
    forall i | r.first <= i <= r.last && MayGo(r.before[i].data)
      ensures r.before[i] in r.batch
    {
      MayGoIff(r.before[i].data);
      CandidateInSpanIsInBatch(r.before, r.batch, r.first, r.last, i);
    }
  }

  /** How far a batch goes: with the share in percent, 80 when none is given, its tokens without those of its last
      entry stay below the share, and with it they reach the share, unless it has everything that may go. */
  lemma BatchReaches(r: Round, s: Settings)
    requires Step(r, s)
    ensures var all := SumCounts(Candidates(r.before), s.est);
            var share := if s.scopePercent <= 0 then 80 else s.scopePercent;
            var front, taken := SumCounts(r.batch[..|r.batch| - 1], s.est), SumCounts(r.batch, s.est);
            && (all > 0 ==> front == 0 || (front + 1) * 100 <= all * share)
            && (all > 0 ==> r.batch == Candidates(r.before) || (taken > 0 && (taken + 1) * 100 > all * share))
            && (all == 0 ==> |r.batch| == 1)
  {
    hide SumCounts, Candidates, SpanOf, IsLastRealUser, ReplacementData, Preserved;
    var all, share := SumCounts(Candidates(r.before), s.est), if s.scopePercent <= 0 then 80 else s.scopePercent;
    ShareIs(all * share, SumCounts(r.batch[..|r.batch| - 1], s.est), SumCounts(r.batch, s.est));
  }

  lemma ShareIs(x: nat, front: nat, taken: nat)
    ensures var target := if x / 100 <= 0 then 1 else x / 100;
            && (front < target ==> front == 0 || (front + 1) * 100 <= x)
            && (taken >= target ==> taken > 0 && (taken + 1) * 100 > x)
  {
  }

  /** The tokens of an entry: the stored count, or the estimate where there is none. */
  lemma {:induction false} CountsAre(entries: seq<MemoryEntry>, est: Estimate)
    ensures entries != [] ==>
              var e := entries[|entries| - 1];
              SumCounts(entries, est) == SumCounts(entries[..|entries| - 1], est) +
                if e.data.tokenCount > 0 then e.data.tokenCount else est(e.data.(tokenCount := 0))
    ensures (forall i :: 0 <= i < |entries| ==> entries[i].data.tokenCount > 0) ==>
              SumCounts(entries, est) == Total(entries)
    decreases |entries|
  {
    if entries != [] {
      CountsAre(entries[..|entries| - 1], est);
    }
  }

  /** The user entry that a step copies: the last one a user wrote. */
  lemma UserIs(r: Round, s: Settings)
    requires Step(r, s)
    ensures r.user.None? <==> forall i :: 0 <= i < |r.before| ==> !UserWrote(r.before[i].data)
    ensures r.user.Some? ==>
              exists at :: 0 <= at < |r.before| && r.before[at] == r.user.value && UserWrote(r.before[at].data)
                           && forall i :: at < i < |r.before| ==> !UserWrote(r.before[i].data)
  {
    hide IsBatch, SpanOf, ReplacementData, Preserved, IsRealUser, UserWrote;
    forall i | 0 <= i < |r.before|
      ensures UserWrote(r.before[i].data) <==> IsRealUser(r.before[i].data)
    {
      MayGoIff(r.before[i].data);
    }
    if r.user.Some? {
      var at :| LastRealUserAt(r.before, at) && r.before[at] == r.user.value;
      assert UserWrote(r.before[at].data);
    }
  }

  /** When the loop stops without an error: the tokens are within the target, nobody summarises, nothing may go, or
      the last round did not shrink the memory. */
  lemma StopsIff(entries: seq<MemoryEntry>, logs: seq<LevelLog>, summarize: Summarizer, limit: int, targetPercent: int)
    requires limit > 0
    ensures MayStop(entries, logs, summarize, limit, targetPercent) <==>
              || targetPercent <= 0 || Total(entries) * 100 < (targetPercent + 1) * limit
              || summarize.None?
              || (forall i :: 0 <= i < |entries| ==> !MayGo(entries[i].data))
              || (logs != [] && logs[|logs| - 1].afterTokens >= logs[|logs| - 1].beforeTokens)
  {
    hide MeetsTarget, Candidates, MayGo, IsCandidate, Total;
    TargetIff(Total(entries), limit, targetPercent);
    NoneMayGo(entries);
  }

  lemma {:induction false} NoneMayGo(entries: seq<MemoryEntry>)
    ensures Candidates(entries) == [] <==> forall i :: 0 <= i < |entries| ==> !MayGo(entries[i].data)
    decreases |entries|
  {
    hide MayGo, IsCandidate;
    if entries != [] {
      var n := |entries| - 1;
      NoneMayGo(entries[..n]);
      MayGoIff(entries[n].data);
      assert forall i :: 0 <= i < n ==> entries[..n][i] == entries[i];
    }
  }

  /** A memory that counts above the target is met by no round: each round starts above it. */
  lemma RoundsStartAbove(start: seq<MemoryEntry>, rounds: seq<Round>, logs: seq<LevelLog>, summarize: Summarizer,
                         limit: int, targetPercent: int, s: Settings)
    requires limit > 0 && Explains(start, rounds, logs, summarize, limit, targetPercent, s) && rounds != []
    ensures var r := rounds[|rounds| - 1];
            targetPercent > 0 && Total(r.before) * 100 >= (targetPercent + 1) * limit
  {
    hide Step, MeetsTarget, Total;
    TargetIff(Total(rounds[|rounds| - 1].before), limit, targetPercent);
  }

  /** The log of a round names the stored entries of its batch: those with an ID, in order. */
  lemma {:induction false} LoggedIDs(batch: seq<MemoryEntry>)
    ensures forall id: nat ::
              id in BatchEntryIDs(batch) <==> id > 0 && exists i :: 0 <= i < |batch| && batch[i].data.id == id
    ensures batch != [] ==>
              BatchEntryIDs(batch) ==
              (if batch[0].data.id > 0 then [batch[0].data.id] else []) + BatchEntryIDs(batch[1..])
    decreases |batch|
  {
    if batch != [] {
      LoggedIDs(batch[1..]);
      assert forall i :: 0 < i < |batch| ==> batch[i] == batch[1..][i - 1];
      forall id: nat
        ensures id in BatchEntryIDs(batch) <==> id > 0 && exists i :: 0 <= i < |batch| && batch[i].data.id == id
      {
        if i :| 0 <= i < |batch| - 1 && batch[1..][i].data.id == id {
          assert batch[i + 1].data.id == id;
        }
      }
    }
  }
}

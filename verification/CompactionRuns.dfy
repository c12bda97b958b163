/** agent/session/memory_compaction_levels.go: what becomes of the last user entry over all rounds of a compaction. */
module CompactionRuns {
  import opened GoStrings
  import opened MemoryCompaction
  import opened CompactionFates

  // ----- Who carries the user's words -----

  /** The entry or the copy that has the words, after one more round: the one that had them, if the round leaves it,
      else the copy that the round made of it. */
  ghost function CarriedOn(r: Round, c: Option<MemoryEntry>): Option<MemoryEntry> {
    if c.None? || c.value in r.after then c
    else if r.user == c && |r.replacement| == 3 then Some(r.replacement[2])
    else None
  }

  ghost function Carrier(user: MemoryEntry, rounds: seq<Round>): Option<MemoryEntry> {
    if rounds == [] then Some(user)
    else CarriedOn(rounds[|rounds| - 1], Carrier(user, rounds[..|rounds| - 1]))
  }

  predicate IsCopy(user: EntryData, d: EntryData) {
    IsProtected(d) && d.content == TrimSpace(user.content) && d.sourceMessageID == user.sourceMessageID
  }

  /** The carrier is the entry itself, still the last one a user wrote, or a protected copy of it. */
  ghost predicate Carries(entries: seq<MemoryEntry>, user: MemoryEntry, c: MemoryEntry) {
    && c in entries
    && (if c == user then exists at :: LastRealUserAt(entries, at) && entries[at] == user
        else IsCopy(user.data, c.data))
  }

  /** The round drops the copy that carries the words, said on the memory before it. */
  ghost predicate DropsCopy(r: Round, c: Option<MemoryEntry>, user: MemoryEntry, s: Settings) {
    exists i: nat :: i < |r.before| && c == Some(r.before[i]) && r.before[i] != user
                     && Dropped(r.before, i, s.scopePercent, s.est)
  }

  lemma ReplacementKinds(sessionID: string, oldest: EntryData, summary: string, preserved: Option<EntryData>,
                         est: Estimate)
    ensures var ds := ReplacementData(sessionID, oldest, summary, preserved, est);
            && |ds| == (if preserved.Some? then 3 else 2)
            && (forall i :: 0 <= i < |ds| ==> !IsRealUser(ds[i]))
            && !IsProtected(ds[0]) && !IsProtected(ds[1]) && IsCandidate(ds[0]) && IsCandidate(ds[1])
            && (preserved.Some? ==> IsCopy(preserved.value, ds[2]))
  {
    assert TrimSpace(SUMMARY_USER) == SUMMARY_USER && TrimSpace(SUMMARY_ASSISTANT) == SUMMARY_ASSISTANT;
    assert TrimSpace(COMPACTION_USER) == COMPACTION_USER && TrimSpace("assistant") == "assistant";
  }

  /** What a step puts in: summaries and copies, none of which a user wrote. */
  lemma StepPutsIn(r: Round, s: Settings)
    requires Step(r, s)
    ensures 2 <= |r.replacement| <= 3
    ensures forall i :: 0 <= i < |r.replacement| ==> !IsRealUser(r.replacement[i].data)
    ensures IsCandidate(r.replacement[0].data) && IsCandidate(r.replacement[1].data)
    ensures |r.replacement| == 3 <==> Preserved(r.user, r.batch).Some?
    ensures |r.replacement| == 3 ==> r.user.Some? && IsCopy(r.user.value.data, r.replacement[2].data)
  {
    hide IsBatch, SpanOf, IsRealUser, IsCandidate, IsProtected, IsCopy, ReplacementData, BatchContainsID;
    var ds := Datas(r.replacement);
    ReplacementKinds(s.sessionID, r.batch[0].data, r.summary, Preserved(r.user, r.batch), s.est);
    assert forall i :: 0 <= i < |ds| ==> ds[i] == r.replacement[i].data;
  }

  /** The last real user entry stays the last one for as long as it is there. */
  lemma StaysLast(r: Round, s: Settings, at: nat)
    requires Distinct(r.before) && Step(r, s) && LastRealUserAt(r.before, at) && r.before[at] in r.after
    ensures exists to :: LastRealUserAt(r.after, to) && r.after[to] == r.before[at]
  {
    hide IsBatch, IsRealUser, IsLastRealUser, ReplacementData, Preserved;
    OutsideSpan(r, s, at);
    StepPutsIn(r, s);
    var n := |r.replacement|;
    var to := if at < r.first then at else at - (r.last + 1) + r.first + n;
    assert r.after[to] == r.before[at];
    forall i | to < i < |r.after|
      ensures !IsRealUser(r.after[i].data)
    {
      if i < r.first {
        assert r.after[i] == r.before[i];
      } else if i < r.first + n {
        assert r.after[i] == r.replacement[i - r.first];
      } else {
        assert r.after[i] == r.before[i - r.first - n + r.last + 1];
      }
    }
  }

  /** One round: the words go on, unless it drops the copy. */
  lemma CarriedOnIff(r: Round, s: Settings, user: MemoryEntry, c: MemoryEntry)
    requires Distinct(r.before) && Step(r, s) && Carries(r.before, user, c)
    requires user.data.id > 0 && 0 <= user.data.level <= 2 && !IsProtected(user.data)
    ensures var c' := CarriedOn(r, Some(c));
            && (c'.None? <==> DropsCopy(r, Some(c), user, s))
            && (c'.Some? ==> Carries(r.after, user, c'.value))
  {
    hide Step, Dropped, IsCopy, IsProtected, IsRealUser, Candidates;
    var i :| 0 <= i < |r.before| && r.before[i] == c;
    StepKeeps(r, s, i);
    if c == user {
      var at :| LastRealUserAt(r.before, at) && r.before[at] == user;
      LastUserGoesOn(r, s, at);
    } else {
      CopyStays(r, s, user, i);
    }
  }

  lemma LastUserGoesOn(r: Round, s: Settings, at: nat)
    requires Distinct(r.before) && Step(r, s) && LastRealUserAt(r.before, at)
    requires r.before[at].data.id > 0 && 0 <= r.before[at].data.level <= 2
    ensures var c := CarriedOn(r, Some(r.before[at])); c.Some? && Carries(r.after, r.before[at], c.value)
  {
    hide Step, Dropped, IsRealUser, Candidates, CopiedTo, IsCopy;
    LastUserSurvives(r, s, at);
    LastUserFate(r, s, at);
    if r.before[at] in r.after {
      StaysLast(r, s, at);
    } else {
      CopyIsMade(r, s);
      NewIsNew(r, s, at);
    }
  }

  lemma CopyIsMade(r: Round, s: Settings)
    requires Step(r, s) && r.user.Some? && CopiedTo(r.user.value.data, Datas(r.replacement))
    ensures |r.replacement| == 3 && IsCopy(r.user.value.data, r.replacement[2].data)
  {
    hide IsBatch, SpanOf, IsLastRealUser, ReplacementData, Preserved, IsCopy;
    StepPutsIn(r, s);
    assert |Datas(r.replacement)| == |r.replacement|;
  }

  lemma NewIsNew(r: Round, s: Settings, i: nat)
    requires Step(r, s) && i < |r.before| && |r.replacement| == 3
    ensures r.replacement[2] != r.before[i]
  {
    hide IsBatch, SpanOf, IsLastRealUser, ReplacementData, Preserved;
  }

  lemma CopyStays(r: Round, s: Settings, user: MemoryEntry, i: nat)
    requires Distinct(r.before) && Step(r, s) && i < |r.before| && IsCopy(user.data, r.before[i].data)
    requires r.before[i] != user
    ensures CarriedOn(r, Some(r.before[i])) == if r.before[i] in r.after then Some(r.before[i]) else None
    ensures DropsCopy(r, Some(r.before[i]), user, s) <==> r.before[i] !in r.after
  {
    hide Dropped, IsBatch, SpanOf, ReplacementData, Preserved, IsProtected, IsRealUser;
    StepKeeps(r, s, i);
    NoCandidate(r.before[i].data);
    forall j: nat | j < |r.before| && r.before[j] == r.before[i]
      ensures j == i
    {
    }
  }

  /** Some round drops the copy. */
  ghost predicate DropsOnce(rounds: seq<Round>, user: MemoryEntry, s: Settings) {
    exists m: nat :: m < |rounds| && DropsCopy(rounds[m], Carrier(user, rounds[..m]), user, s)
  }

  lemma DropsOnceMore(rounds: seq<Round>, user: MemoryEntry, s: Settings)
    requires rounds != []
    ensures var k := |rounds| - 1;
            DropsOnce(rounds, user, s) <==>
            DropsOnce(rounds[..k], user, s) || DropsCopy(rounds[k], Carrier(user, rounds[..k]), user, s)
  {
    hide DropsCopy, Carrier;
    var k := |rounds| - 1;
    forall m: nat | m < k
      ensures rounds[..k][m] == rounds[m] && rounds[..k][..m] == rounds[..m]
    {
    }
    if m: nat :| m < k && DropsCopy(rounds[..k][m], Carrier(user, rounds[..k][..m]), user, s) {
      assert DropsCopy(rounds[m], Carrier(user, rounds[..m]), user, s);
    }
  }

  lemma LastRound(start: seq<MemoryEntry>, rounds: seq<Round>, logs: seq<LevelLog>, summarize: Summarizer,
                  limit: int, targetPercent: int, s: Settings)
    requires Explains(start, rounds, logs, summarize, limit, targetPercent, s) && rounds != []
    ensures var k := |rounds| - 1;
            && |logs| == k + 1 && Explains(start, rounds[..k], logs[..k], summarize, limit, targetPercent, s)
            && rounds[k].before == End(start, rounds[..k]) && Distinct(rounds[k].before) && Step(rounds[k], s)
            && !MeetsTarget(Total(rounds[k].before), limit, targetPercent) && LogSays(logs[k], rounds[k])
  {
    hide Step, Distinct, MeetsTarget, LogSays;
  }

  /** Over a whole compaction the words of the last user entry, if it has an ID and a level of 0 to 2, are in the
      memory, in the entry or in a copy, exactly as long as no round drops the copy. */
  lemma {:induction false} WordsLostIff(start: seq<MemoryEntry>, rounds: seq<Round>, logs: seq<LevelLog>,
                                        summarize: Summarizer, limit: int, targetPercent: int, s: Settings, at: nat)
    requires Explains(start, rounds, logs, summarize, limit, targetPercent, s) && LastRealUserAt(start, at)
    requires start[at].data.id > 0 && 0 <= start[at].data.level <= 2
    ensures var c := Carrier(start[at], rounds);
            && (c.None? <==> DropsOnce(rounds, start[at], s))
            && (c.Some? ==> Carries(End(start, rounds), start[at], c.value))
    decreases |rounds|
  {
    hide Explains, Step, Distinct, DropsOnce, DropsCopy, CarriedOn, Carries, IsRealUser, MeetsTarget, LogSays;
    var user := start[at];
    if rounds == [] {
      CarriesItself(start, at);
      assert !DropsOnce([], user, s) by { NoRounds(user, s); }
    } else {
      var k := |rounds| - 1;
      LastRound(start, rounds, logs, summarize, limit, targetPercent, s);
      WordsLostIff(start, rounds[..k], logs[..k], summarize, limit, targetPercent, s, at);
      DropsOnceMore(rounds, user, s);
      var c := Carrier(user, rounds[..k]);
      UserIsNotProtected(user.data);
      if c.Some? {
        CarriedOnIff(rounds[k], s, user, c.value);
      } else {
        NothingToDrop(rounds[k], user, s);
      }
    }
  }

  lemma NoRounds(user: MemoryEntry, s: Settings)
    ensures !DropsOnce([], user, s)
  {
  }

  lemma CarriesItself(entries: seq<MemoryEntry>, at: nat)
    requires LastRealUserAt(entries, at)
    ensures Carries(entries, entries[at], entries[at])
  {
  }

  lemma UserIsNotProtected(d: EntryData)
    requires IsRealUser(d)
    ensures !IsProtected(d)
  {
  }

  lemma NothingToDrop(r: Round, user: MemoryEntry, s: Settings)
    ensures CarriedOn(r, None).None? && !DropsCopy(r, None, user, s)
  {
  }

  // ----- The round behind the one that made the copy -----

  /** Whether the copy outlives the very next round: it is dropped exactly when candidates stand behind the span that
      it was made for, and the two new summary entries fall short of the next target. */
  lemma NextRoundDropsIff(r: Round, q: Round, s: Settings)
    requires Distinct(r.before) && Step(r, s) && |r.replacement| == 3
    requires Distinct(q.before) && Step(q, s) && q.before == r.after
    ensures var summaries, rest := r.replacement[..2], Candidates(r.before[r.last + 1..]);
            var tokens := SumCounts(summaries + rest, s.est);
            r.replacement[2] !in q.after <==>
              rest != [] && tokens > 0 && SumCounts(summaries, s.est) < BatchTarget(tokens, s.scopePercent)
  {
    hide Step, Candidates, SumCounts, BatchTarget, IsProtected, IsCandidate, IsRealUser, IsCopy;
    var i := r.first + 2;
    AroundCopy(r, s);
    ProtectedDroppedIff(q, s, i);
    CandidatesAround(q.before, i);
    NoCandidate(q.before[i].data);
    assert r.replacement[..2] + [] == r.replacement[..2];
  }

  /** Around the copy stand the summaries, and what the round left behind its span. */
  lemma AroundCopy(r: Round, s: Settings)
    requires Distinct(r.before) && Step(r, s) && |r.replacement| == 3
    ensures 0 <= r.first && r.first + 2 < |r.after|
    ensures var i := r.first + 2;
            && r.after[i] == r.replacement[2] && IsProtected(r.after[i].data)
            && Candidates(r.after[..i]) == r.replacement[..2]
            && r.after[i + 1..] == r.before[r.last + 1..]
  {
    hide IsBatch, Candidates, IsProtected, IsCandidate, IsRealUser, IsLastRealUser, ReplacementData, Preserved;
    StepPutsIn(r, s);
    BatchIsFront(r.before, s.scopePercent, s.est, r.batch);
    FirstAhead(r.before, r.batch, r.first);
    var front := r.before[..r.first];
    assert r.after[..r.first + 2] == front + r.replacement[..2];
    CandidatesConcat(front, r.replacement[..2]);
    assert r.replacement[..2] == [r.replacement[0], r.replacement[1]];
    TwoCandidates(r.replacement[0], r.replacement[1]);
  }

  lemma TwoCandidates(a: MemoryEntry, b: MemoryEntry)
    requires IsCandidate(a.data) && IsCandidate(b.data)
    ensures Candidates([a, b]) == [a, b]
  {
    hide IsCandidate;
    assert [a, b][..1] == [a] && [a][..0] == [];
    assert Candidates([a]) == [a];
  }

  // ----- A compaction that loses the words -----

  lemma {:induction false} FrontExplains(start: seq<MemoryEntry>, rounds: seq<Round>, logs: seq<LevelLog>,
                                         summarize: Summarizer, limit: int, targetPercent: int, s: Settings, k: nat)
    requires Explains(start, rounds, logs, summarize, limit, targetPercent, s) && k <= |rounds|
    ensures |rounds| == |logs| && Explains(start, rounds[..k], logs[..k], summarize, limit, targetPercent, s)
    decreases |rounds|
  {
    hide RoundOk;
    if k < |rounds| {
      var n := |rounds| - 1;
      FrontExplains(start, rounds[..n], logs[..n], summarize, limit, targetPercent, s, k);
      assert rounds[..n][..k] == rounds[..k] && logs[..n][..k] == logs[..k];
    } else {
      assert rounds[..k] == rounds;
      assert |rounds| == |logs| && logs[..k] == logs;
    }
  }

  /** Words that are lost stay lost. */
  lemma {:induction false} LostForGood(user: MemoryEntry, rounds: seq<Round>, k: nat)
    requires k <= |rounds| && Carrier(user, rounds[..k]).None?
    ensures Carrier(user, rounds).None?
    decreases |rounds|
  {
    if k < |rounds| {
      var n := |rounds| - 1;
      assert rounds[..n][..k] == rounds[..k];
      LostForGood(user, rounds[..n], k);
    } else {
      assert rounds[..k] == rounds;
    }
  }

  /** Three entries of 100 tokens each, the first one written by the user. */
  predicate Three(u: MemoryEntry, b: MemoryEntry, c: MemoryEntry) {
    && u != b && u != c && b != c
    && IsRealUser(u.data) && u.data.id == 1 && u.data.level == 0
    && IsCandidate(b.data) && !IsRealUser(b.data) && IsCandidate(c.data) && !IsRealUser(c.data)
    && u.data.tokenCount == b.data.tokenCount == c.data.tokenCount == 100
  }

  /** A round summarises 30 percent, and every new entry has one token. */
  ghost predicate Small(s: Settings) {
    s.scopePercent == 30 && forall d :: s.est(d) == 1
  }

  lemma CountsOfThree(u: MemoryEntry, b: MemoryEntry, c: MemoryEntry, est: Estimate)
    requires Three(u, b, c)
    ensures Candidates([u, b, c]) == [u, b, c] && Candidates([b, c]) == [b, c]
    ensures SumCounts([u], est) == 100 && SumCounts([u, b, c], est) == 300 && SumCounts([], est) == 0
    ensures Total([u, b, c]) == 300 && Total([u]) == 100
  {
    hide IsCandidate, IsRealUser;
    UsersAreCandidates(u.data);
    assert [u, b, c][..2] == [u, b] && [u, b][..1] == [u] && [u][..0] == [];
    TwoCandidates(u, b);
    TwoCandidates(b, c);
    TwoCounts(u, b, est);
    assert Total([u]) == 100;
    assert Total([u, b]) == 200;
  }

  /** The first round summarises the user's entry alone, and copies it. */
  lemma FirstRound(u: MemoryEntry, b: MemoryEntry, c: MemoryEntry, r: Round, s: Settings)
    requires Three(u, b, c) && Small(s) && Step(r, s) && r.before == [u, b, c]
    ensures r.batch == [u] && r.first == r.last == 0 && r.user == Some(u)
    ensures |r.replacement| == 3 && r.after == r.replacement + [b, c]
  {
    hide IsCandidate, IsRealUser, Candidates, SumCounts, IsLastRealUser, ReplacementData, Disjoint;
    CountsOfThree(u, b, c, s.est);
    FirstBatch(u, b, c, r.batch, s);
    FirstUser(u, b, c, r.user);
    assert r.batch[0].data.id == 1;
    StepPutsIn(r, s);
    assert [u, b, c][..0] == [] && [u, b, c][1..] == [b, c];
    assert r.before[r.first] == u && r.before[r.last] == u;
  }

  lemma FirstBatch(u: MemoryEntry, b: MemoryEntry, c: MemoryEntry, batch: seq<MemoryEntry>, s: Settings)
    requires Three(u, b, c) && Small(s) && IsBatch([u, b, c], s.scopePercent, s.est, batch)
    ensures batch == [u]
  {
    hide IsCandidate, IsRealUser, Candidates, SumCounts;
    CountsOfThree(u, b, c, s.est);
    if |batch| > 1 {
      var init := batch[..|batch| - 1];
      assert init[..1] == [u];
      SumCountsMonotone(init, 1, s.est);
    }
  }

  lemma FirstUser(u: MemoryEntry, b: MemoryEntry, c: MemoryEntry, user: Option<MemoryEntry>)
    requires Three(u, b, c) && IsLastRealUser([u, b, c], user)
    ensures user == Some(u)
  {
    hide IsRealUser, IsCandidate;
    assert LastRealUserAt([u, b, c], 0);
    TheLastUser([u, b, c], user, 0);
  }

  lemma NewCounts(r: Round, s: Settings)
    requires Step(r, s) && Small(s) && |r.replacement| == 3
    ensures forall i :: 0 <= i < 3 ==> r.replacement[i].data.tokenCount == 1
    ensures Total(r.replacement) == 3 && SumCounts(r.replacement[..2], s.est) == 2
  {
    hide IsBatch, SpanOf, IsLastRealUser, Disjoint, TrimSpace;
    var x := r.replacement;
    assert forall i :: 0 <= i < 3 ==> Datas(x)[i] == x[i].data;
    assert x[..2][..1] == [x[0]] && [x[0]][..0] == [];
    assert SumCounts([x[0]], s.est) == 1;
    assert x[..1] == [x[0]] && x[..2] == [x[0], x[1]] && [x[0], x[1]][..1] == [x[0]];
    assert Total([x[0]]) == 1;
    assert Total([x[0], x[1]]) == 2;
  }

  lemma {:induction false} SumCountsConcat(a: seq<MemoryEntry>, b: seq<MemoryEntry>, est: Estimate)
    ensures SumCounts(a + b, est) == SumCounts(a, est) + SumCounts(b, est)
    decreases |b|
  {
    if b == [] {
      assert a + b == a;
    } else {
      assert (a + b)[..|a + b| - 1] == a + b[..|b| - 1];
      SumCountsConcat(a, b[..|b| - 1], est);
    }
  }

  /** The second round drops the copy, and the words with it. */
  lemma SecondRound(u: MemoryEntry, b: MemoryEntry, c: MemoryEntry, r: Round, q: Round, s: Settings)
    requires Three(u, b, c) && Small(s) && Step(r, s) && r.before == [u, b, c]
    requires Distinct(r.before) && Distinct(q.before) && Step(q, s) && q.before == r.after
    ensures Carrier(u, [r, q]).None?
  {
    hide Step, IsCandidate, IsRealUser, Candidates, SumCounts, IsProtected;
    FirstRound(u, b, c, r, s);
    NewCounts(r, s);
    CountsOfThree(u, b, c, s.est);
    TwoCounts(b, c, s.est);
    assert r.before[1..] == [b, c];
    SumCountsConcat(r.replacement[..2], [b, c], s.est);
    NextRoundDropsIff(r, q, s);
    StepPutsIn(r, s);
    if q.user.Some? {
      UserIsReal(q, s);
    }
    assert u !in r.after by { OutsideSpan(r, s, 0); }
    assert [r, q][..1] == [r] && [r][..0] == [];
    assert Carrier(u, [r]) == Some(r.replacement[2]);
  }

  lemma UserIsReal(q: Round, s: Settings)
    requires Step(q, s) && q.user.Some?
    ensures IsRealUser(q.user.value.data)
  {
    hide IsBatch, SpanOf, IsRealUser, Disjoint;
  }

  /** Whatever the summariser says, a compaction of these three entries to ten percent of a limit of 100 tokens that
      comes to its end makes at least two rounds, and loses the user's words. */
  lemma WordsAreLost(u: MemoryEntry, b: MemoryEntry, c: MemoryEntry, rounds: seq<Round>, logs: seq<LevelLog>,
                     summarize: Summarizer, s: Settings)
    requires Three(u, b, c) && Small(s) && summarize.Some?
    requires Explains([u, b, c], rounds, logs, summarize, 100, 10, s)
    requires MayStop(End([u, b, c], rounds), logs, summarize, 100, 10)
    ensures |rounds| >= 2 && Carrier(u, rounds).None?
  {
    hide Explains, Step, IsCandidate, IsRealUser, Candidates, SumCounts, Carrier, Total, LogSays, Distinct;
    var start := [u, b, c];
    FrontExplains(start, rounds, logs, summarize, 100, 10, s, 0);
    CountsOfThree(u, b, c, s.est);
    assert |rounds| > 0;
    FrontExplains(start, rounds, logs, summarize, 100, 10, s, 1);
    LastRound(start, rounds[..1], logs[..1], summarize, 100, 10, s);
    var r := rounds[0];
    assert rounds[..1][..0] == [] && rounds[..1][0] == r && logs[..1][0] == logs[0];
    AfterFirst(u, b, c, r, s);
    assert |rounds| == 1 ==> rounds[..1] == rounds;
    assert LogSays(logs[0], r);
    assert |rounds| > 1 by { LogTokens(logs[0], r); }
    FrontExplains(start, rounds, logs, summarize, 100, 10, s, 2);
    LastRound(start, rounds[..2], logs[..2], summarize, 100, 10, s);
    assert rounds[..2][..1] == [r] && rounds[..2] == [r, rounds[1]];
    SecondRound(u, b, c, r, rounds[1], s);
    LostForGood(u, rounds, 2);
  }

  lemma LogTokens(log: LevelLog, r: Round)
    requires LogSays(log, r)
    ensures log.beforeTokens == Total(r.before) && log.afterTokens == Total(r.after)
  {
  }

  /** The first round leaves 203 tokens, and candidates. */
  lemma AfterFirst(u: MemoryEntry, b: MemoryEntry, c: MemoryEntry, r: Round, s: Settings)
    requires Three(u, b, c) && Small(s) && Step(r, s) && r.before == [u, b, c]
    ensures Total(r.after) == 203 && Candidates(r.after) != []
  {
    hide Step, IsCandidate, IsRealUser, Candidates, SumCounts, Total;
    FirstRound(u, b, c, r, s);
    NewCounts(r, s);
    CountsOfThree(u, b, c, s.est);
    StepTokens(r, s);
    assert r.before[0..1] == [u];
    CandidatesConcat(r.replacement, [b, c]);
  }
}

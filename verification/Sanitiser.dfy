/** agent/session/memory_compaction_output.go: what is kept of a summary that the model wrote. Text is a
    sequence of runes. */
module Sanitiser {
  import opened GoStrings

  const MIN_REPEATED_PHRASE_RUNES := 12
  const MIN_REPEAT_COUNT := 3
  const MAX_REPEATED_PHRASE_RUNES := 200

  function Min(a: int, b: int): int {
    if a < b then a else b
  }

  // ----- The same phrase three times in a row -----

  /** The text starts with three copies of its first `p` runes. */
  predicate StartsThrice(s: string, p: nat) {
    3 * p <= |s| && s[p..2 * p] == s[..p] && s[2 * p..3 * p] == s[..p]
  }

  function MaxPeriod(s: string): int {
    Min(|s| / MIN_REPEAT_COUNT, MAX_REPEATED_PHRASE_RUNES)
  }

  predicate IsPeriod(s: string, p: nat) {
    MIN_REPEATED_PHRASE_RUNES <= p <= MaxPeriod(s) && StartsThrice(s, p)
  }

  /** The copies at the front of the text, as far as three matter. */
  method CountCopies(s: string, period: nat) returns (count: nat)
    requires 0 < period && 3 * period <= |s|
    ensures count >= MIN_REPEAT_COUNT <==> StartsThrice(s, period)
  {
    count := 1;
    var pos := period;
    while pos + period <= |s| && s[pos..pos + period] == s[..period]
      invariant period <= pos <= |s| && count >= 1
      invariant count == 1 ==> pos == period
      invariant count == 2 ==> pos == 2 * period && s[period..2 * period] == s[..period]
      invariant count >= 3 ==> StartsThrice(s, period)
      decreases |s| - pos
    {
      count := count + 1;
      pos := pos + period;
    }
  }

  /** `r` is the shortest phrase that stands three times in a row at the start. */
  ghost predicate CutToPeriod(s: string, r: string, p: nat) {
    IsPeriod(s, p) && r == s[..p] && forall q: nat :: q < p ==> !IsPeriod(s, q)
  }

  /** The text is cut to its shortest phrase that stands three times in a row at its start, if there is one. */
  method TruncateConsecutiveRepeat(s: string) returns (r: string, changed: bool)
    ensures changed <==> exists p: nat :: IsPeriod(s, p)
    ensures changed ==> exists p: nat :: CutToPeriod(s, r, p)
    ensures !changed ==> r == s
  {
    r, changed := s, false;
    if |s| < MIN_REPEATED_PHRASE_RUNES * MIN_REPEAT_COUNT {
      return;
    }
    var maxPeriod := |s| / MIN_REPEAT_COUNT;
    if maxPeriod > MAX_REPEATED_PHRASE_RUNES {
      maxPeriod := MAX_REPEATED_PHRASE_RUNES;
    }
    var period := MIN_REPEATED_PHRASE_RUNES;
    while period <= maxPeriod
      invariant MIN_REPEATED_PHRASE_RUNES <= period <= maxPeriod + 1
      invariant forall q: nat :: q < period ==> !IsPeriod(s, q)
    {
      var count := CountCopies(s, period);
      if count >= MIN_REPEAT_COUNT {
        assert CutToPeriod(s, s[..period], period);
        return s[..period], true;
      }
      period := period + 1;
    }
  }

  // ----- A phrase that makes up most of the text -----

  /** At how many of the first `n` places the phrase stands; overlapping ones count. */
  function Occurrences(s: string, phrase: string, n: nat): nat {
    if n == 0 then 0 else Occurrences(s, phrase, n - 1) + if OccursAt(s, phrase, n - 1) then 1 else 0
  }

  function Total(s: string, phrase: string): nat {
    Occurrences(s, phrase, |s|)
  }

  predicate Covers(count: nat, length: nat, n: nat)
    requires n > 0
  {
    count * length * 100 / n >= 55
  }

  /** The phrase is long enough, stands there three times, and its copies are more than half of the text. */
  predicate Dominates(s: string, phrase: string) {
    && |s| >= MIN_REPEATED_PHRASE_RUNES * MIN_REPEAT_COUNT
    && MIN_REPEATED_PHRASE_RUNES <= |phrase| <= Min(MAX_REPEATED_PHRASE_RUNES, |s| / 2)
    && Total(s, phrase) >= MIN_REPEAT_COUNT
    && Covers(Total(s, phrase), |phrase|, |s|)
  }

  lemma {:induction false} OccursSome(s: string, phrase: string, n: nat)
    ensures Occurrences(s, phrase, n) > 0 <==> exists i: nat :: i < n && OccursAt(s, phrase, i)
  {
    if n > 0 {
      OccursSome(s, phrase, n - 1);
      if i: nat :| i < n && OccursAt(s, phrase, i) && i != n - 1 {
        assert i < n - 1;
      }
    }
  }

  /** No phrase of that length stands behind the last place where it would fit. */
  lemma {:induction false} NoneBehind(s: string, phrase: string, i: nat, n: nat)
    requires i <= n && i + |phrase| > |s|
    ensures Occurrences(s, phrase, n) == Occurrences(s, phrase, i)
    decreases n
  {
    if i < n {
      NoneBehind(s, phrase, i, n - 1);
    }
  }

  /** The maps hold the phrases of that length that stand at the first `n` places: how often, and where first. */
  ghost predicate Counted(s: string, length: nat, n: nat, counts: map<string, nat>, first: map<string, nat>) {
    && counts.Keys == first.Keys
    && (forall phrase: string :: phrase in counts <==> |phrase| == length && Occurrences(s, phrase, n) > 0)
    && (forall phrase: string ::
          phrase in counts ==> counts[phrase] == Occurrences(s, phrase, n) && first[phrase] == Index(s, phrase))
  }

  lemma CountedStep(s: string, length: nat, i: nat, counts: map<string, nat>, first: map<string, nat>)
    requires Counted(s, length, i, counts, first) && i + length <= |s|
    ensures var phrase := s[i..i + length];
            Counted(s, length, i + 1, counts[phrase := if phrase in counts then counts[phrase] + 1 else 1],
                    if phrase in first then first else first[phrase := i])
  {
    hide Index;
    var here := s[i..i + length];
    var counts' := counts[here := if here in counts then counts[here] + 1 else 1];
    var first' := if here in first then first else first[here := i];
    assert counts'.Keys == first'.Keys;
    forall phrase: string
      ensures phrase in counts' <==> |phrase| == length && Occurrences(s, phrase, i + 1) > 0
      ensures phrase in counts' ==>
              counts'[phrase] == Occurrences(s, phrase, i + 1) && first'[phrase] == Index(s, phrase)
    {
      CountedPhrase(s, length, i, counts, first, phrase);
    }
  }

  lemma CountedPhrase(s: string, length: nat, i: nat, counts: map<string, nat>, first: map<string, nat>, phrase: string)
    requires Counted(s, length, i, counts, first) && i + length <= |s|
    ensures var here := s[i..i + length];
            && (phrase in counts || phrase == here <==> |phrase| == length && Occurrences(s, phrase, i + 1) > 0)
            && (phrase == here && phrase !in counts ==> Occurrences(s, phrase, i + 1) == 1 && Index(s, phrase) == i)
            && (phrase in counts ==> Occurrences(s, phrase, i + 1) == counts[phrase] + if phrase == here then 1 else 0)
            && (phrase in counts ==> first[phrase] == Index(s, phrase))
  {
    hide Index;
    OccursSome(s, phrase, i);
    if phrase == s[i..i + length] && phrase !in counts {
      assert OccursAt(s, phrase, i);
      IndexIs(s, phrase, i);
    }
  }

  lemma IndexIs(s: string, phrase: string, i: nat)
    requires OccursAt(s, phrase, i) && forall j: nat :: j < i ==> !OccursAt(s, phrase, j)
    ensures Index(s, phrase) == i
  {
  }

  method CountPhrases(s: string, length: nat) returns (counts: map<string, nat>, first: map<string, nat>)
    requires 0 < length <= |s|
    ensures Counted(s, length, |s|, counts, first)
  {
    hide Counted, Occurrences;
    counts, first := map[], map[];
    var i := 0;
    NothingCounted(s, length);
    while i + length <= |s|
      invariant 0 <= i <= |s| - length + 1
      invariant Counted(s, length, i, counts, first)
    {
      CountedStep(s, length, i, counts, first);
      var phrase := s[i..i + length];
      counts := counts[phrase := if phrase in counts then counts[phrase] + 1 else 1];
      if phrase !in first {
        first := first[phrase := i];
      }
      i := i + 1;
    }
    CountedAll(s, length, i, counts, first);
  }

  lemma NothingCounted(s: string, length: nat)
    ensures Counted(s, length, 0, map[], map[])
  {
  }

  lemma CountedAll(s: string, length: nat, i: nat, counts: map<string, nat>, first: map<string, nat>)
    requires Counted(s, length, i, counts, first) && i <= |s| < i + length
    ensures Counted(s, length, |s|, counts, first)
  {
    hide Index;
    forall phrase: string | |phrase| == length
      ensures Occurrences(s, phrase, |s|) == Occurrences(s, phrase, i)
    {
      NoneBehind(s, phrase, i, |s|);
    }
  }

  /** The best phrase so far: none, or one that dominates, with its place. */
  datatype Candidate = Candidate(phrase: string, count: nat, start: int)

  predicate Beats(count: nat, length: nat, best: Candidate) {
    count > best.count || (count == best.count && length > |best.phrase|)
  }

  ghost predicate IsCandidate(s: string, best: Candidate) {
    best == Candidate("", 0, 0)
      || (Dominates(s, best.phrase) && best.count == Total(s, best.phrase) && best.start == Index(s, best.phrase))
  }

  /** The best phrase when the counted ones are met in that order: a later one replaces it only when it beats it. */
  function BestIn(s: string, order: seq<string>, best: Candidate): Candidate {
    if order == [] then best
    else
      var n := |order| - 1;
      var p, b := order[n], BestIn(s, order[..n], best);
      if Dominates(s, p) && Beats(Total(s, p), |p|, b) then Candidate(p, Total(s, p), Index(s, p)) else b
  }

  lemma BestInNext(s: string, order: seq<string>, p: string, best: Candidate)
    ensures BestIn(s, order + [p], best) ==
            var b := BestIn(s, order, best);
            if Dominates(s, p) && Beats(Total(s, p), |p|, b) then Candidate(p, Total(s, p), Index(s, p)) else b
  {
    hide Dominates, Total, Index, Beats;
    assert (order + [p])[..|order|] == order;
  }

  /** The order is one in which Go may range over the map of the phrases of one length: all of them, each once. */
  ghost predicate IsOrder(s: string, length: nat, order: seq<string>) {
    && (forall i, j :: 0 <= i < j < |order| ==> order[i] != order[j])
    && forall phrase: string :: phrase in order <==> |phrase| == length && Total(s, phrase) > 0
  }

  /** Of the dominating phrases of one length that stand there most often, the one that is met first is kept. */
  lemma {:induction false} FirstMetWins(s: string, order: seq<string>, best: Candidate, k: nat)
    requires k < |order| && Dominates(s, order[k]) && Beats(Total(s, order[k]), |order[k]|, best)
    requires forall i :: 0 <= i < |order| ==> |order[i]| == |order[k]|
    requires forall i :: 0 <= i < |order| && Dominates(s, order[i]) ==> Total(s, order[i]) <= Total(s, order[k])
    requires forall i :: 0 <= i < k && Dominates(s, order[i]) ==> Total(s, order[i]) < Total(s, order[k])
    ensures BestIn(s, order, best) == Candidate(order[k], Total(s, order[k]), Index(s, order[k]))
    decreases |order|
  {
    hide Dominates, Total, Index;
    var n := |order| - 1;
    if k < n {
      FirstMetWins(s, order[..n], best, k);
    } else {
      StillBeaten(s, order[..n], best, order[k]);
    }
  }

  lemma {:induction false} StillBeaten(s: string, order: seq<string>, best: Candidate, p: string)
    requires Beats(Total(s, p), |p|, best)
    requires forall i :: 0 <= i < |order| && Dominates(s, order[i]) ==> Total(s, order[i]) < Total(s, p)
    ensures Beats(Total(s, p), |p|, BestIn(s, order, best))
    decreases |order|
  {
    hide Dominates, Total, Index;
    if order != [] {
      StillBeaten(s, order[..|order| - 1], best, p);
    }
  }

  lemma CountedAt(s: string, length: nat, counts: map<string, nat>, first: map<string, nat>, phrase: string)
    requires Counted(s, length, |s|, counts, first) && |s| >= MIN_REPEATED_PHRASE_RUNES * MIN_REPEAT_COUNT
    requires MIN_REPEATED_PHRASE_RUNES <= length <= Min(MAX_REPEATED_PHRASE_RUNES, |s| / 2) && phrase in counts
    ensures |phrase| == length && counts[phrase] == Total(s, phrase) && phrase in first
    ensures first[phrase] == Index(s, phrase)
    ensures Dominates(s, phrase) <==> counts[phrase] >= MIN_REPEAT_COUNT && Covers(counts[phrase], length, |s|)
  {
    hide Occurrences, Index, Covers;
  }

  lemma DominatingIsCounted(s: string, length: nat, counts: map<string, nat>, first: map<string, nat>)
    requires Counted(s, length, |s|, counts, first)
    ensures forall phrase: string :: |phrase| == length && Dominates(s, phrase) ==> phrase in counts
  {
    hide Occurrences, Index, Covers;
  }

  /** The phrases of one length, in any order. */
  method BestOfLength(s: string, length: nat, best: Candidate) returns (r: Candidate, ghost order: seq<string>)
    requires MIN_REPEATED_PHRASE_RUNES <= length <= Min(MAX_REPEATED_PHRASE_RUNES, |s| / 2) && IsCandidate(s, best)
    requires |s| >= MIN_REPEATED_PHRASE_RUNES * MIN_REPEAT_COUNT
    ensures IsCandidate(s, r) && (r == best || Beats(r.count, |r.phrase|, best))
    ensures forall phrase: string :: |phrase| == length && Dominates(s, phrase) ==> !Beats(Total(s, phrase), length, r)
    ensures IsOrder(s, length, order) && r == BestIn(s, order, best)
  {
    hide Total, Index, Covers, Counted, Dominates, IsOrder, BestIn;
    r, order := best, [];
    var counts, first := CountPhrases(s, length);
    DominatingIsCounted(s, length, counts, first);
    BestInNone(s, best);
    var left := counts.Keys;
    while left != {}
      invariant left <= counts.Keys && IsCandidate(s, r) && (r == best || Beats(r.count, |r.phrase|, best))
      invariant forall phrase: string ::
                  phrase in counts && phrase !in left && Dominates(s, phrase) ==> !Beats(Total(s, phrase), length, r)
      invariant Ranged(order, counts.Keys, left) && r == BestIn(s, order, best)
      decreases |left|
    {
      var phrase := AnyOf(left);
      CountedAt(s, length, counts, first, phrase);
      RangedNext(order, counts.Keys, left, phrase);
      BestInNext(s, order, phrase, best);
      left, order := left - {phrase}, order + [phrase];
      var count := counts[phrase];
      if count < MIN_REPEAT_COUNT {
        continue;
      }
      if !Covers(count, length, |s|) {
        continue;
      }
      if Beats(count, |phrase|, r) {
        r := Candidate(phrase, count, first[phrase]);
      }
    }
    RangedAll(s, length, counts, first, order);
  }

  /** The keys that the loop has met, in the order in which it met them. */
  ghost predicate Ranged(order: seq<string>, keys: set<string>, left: set<string>) {
    && (forall i, j :: 0 <= i < j < |order| ==> order[i] != order[j])
    && forall phrase: string :: phrase in order <==> phrase in keys && phrase !in left
  }

  lemma RangedNext(order: seq<string>, keys: set<string>, left: set<string>, phrase: string)
    requires Ranged(order, keys, left) && phrase in left && left <= keys
    ensures Ranged(order + [phrase], keys, left - {phrase})
  {
    assert phrase !in order;
  }

  lemma BestInNone(s: string, best: Candidate)
    ensures BestIn(s, [], best) == best
  {
  }

  lemma RangedAll(s: string, length: nat, counts: map<string, nat>, first: map<string, nat>, order: seq<string>)
    requires Counted(s, length, |s|, counts, first) && Ranged(order, counts.Keys, {})
    ensures IsOrder(s, length, order)
  {
    hide Index, Occurrences;
  }

  /** The phrase dominates, none that does stands there more often, and none as often is longer. */
  ghost predicate Maximal(s: string, phrase: string) {
    && Dominates(s, phrase)
    && forall other: string :: Dominates(s, other) ==>
         Total(s, other) < Total(s, phrase) || (Total(s, other) == Total(s, phrase) && |other| <= |phrase|)
  }

  /** `r` ends with the first copy of a maximal phrase. */
  ghost predicate CutAt(s: string, r: string, phrase: string) {
    Maximal(s, phrase) && Index(s, phrase) >= 0 && r == s[..Index(s, phrase) + |phrase|]
  }

  /** The text is cut behind the first copy of the phrase that dominates it, if one does. */
  method TruncateDominantRepeatedPhrase(s: string) returns (r: string, changed: bool, ghost phrase: string)
    ensures changed <==> exists p: string :: Dominates(s, p)
    ensures changed ==> CutAt(s, r, phrase)
    ensures !changed ==> r == s
  {
    hide Dominates, Index, Total;
    r, changed, phrase := s, false, "";
    if |s| < MIN_REPEATED_PHRASE_RUNES * MIN_REPEAT_COUNT {
      TooShort(s);
      return;
    }
    var maxPhraseLen := MAX_REPEATED_PHRASE_RUNES;
    if maxPhraseLen > |s| / 2 {
      maxPhraseLen := |s| / 2;
    }
    var best := Candidate("", 0, 0);
    var length := MIN_REPEATED_PHRASE_RUNES;
    LengthOfDominating(s);
    while length <= maxPhraseLen
      invariant MIN_REPEATED_PHRASE_RUNES <= length && IsCandidate(s, best)
      invariant forall p: string :: |p| < length && Dominates(s, p) ==> !Beats(Total(s, p), |p|, best)
    {
      ghost var order;
      best, order := BestOfLength(s, length, best);
      length := length + 1;
    }
    if best.count < MIN_REPEAT_COUNT {
      return;
    }
    phrase := best.phrase;
    PhraseFits(s, phrase);
    var end := best.start + |best.phrase|;
    return s[..end], true, phrase;
  }

  lemma TooShort(s: string)
    requires |s| < MIN_REPEATED_PHRASE_RUNES * MIN_REPEAT_COUNT
    ensures forall p: string :: !Dominates(s, p)
  {
  }

  lemma LengthOfDominating(s: string)
    ensures forall p: string :: Dominates(s, p) ==>
              && MIN_REPEATED_PHRASE_RUNES <= |p| <= Min(MAX_REPEATED_PHRASE_RUNES, |s| / 2)
              && Total(s, p) >= MIN_REPEAT_COUNT
  {
  }

  lemma PhraseFits(s: string, phrase: string)
    requires Dominates(s, phrase)
    ensures Index(s, phrase) >= 0 && Index(s, phrase) + |phrase| <= |s|
  {
    hide Covers;
    OccursSome(s, phrase, |s|);
  }

  // ----- When the order of the map matters -----

  ghost predicate OneMaximal(s: string) {
    forall p: string, q: string :: Maximal(s, p) && Maximal(s, q) ==> p == q
  }

  /** The cuts that are possible for a text: any maximal phrase may be met first when the map is ranged. */
  ghost predicate MayCut(s: string, r: string) {
    exists phrase: string :: CutAt(s, r, phrase)
  }

  /** The cut is determined by the text exactly when it has at most one maximal phrase. */
  lemma CutUniqueIff(s: string)
    ensures (forall r: string, r': string :: MayCut(s, r) && MayCut(s, r') ==> r == r') <==> OneMaximal(s)
  {
    hide Maximal, Index;
    if OneMaximal(s) {
      forall r: string, r': string | MayCut(s, r) && MayCut(s, r')
        ensures r == r'
      {
        var p: string, q: string :| CutAt(s, r, p) && CutAt(s, r', q);
        assert p == q;
      }
    }
    if forall r: string, r': string :: MayCut(s, r) && MayCut(s, r') ==> r == r' {
      forall p: string, q: string | Maximal(s, p) && Maximal(s, q)
        ensures p == q
      {
        var r := CutOf(s, p);
        var r' := CutOf(s, q);
        assert r == r';
        SameCut(s, p, q);
      }
    }
  }

  lemma CutOf(s: string, p: string) returns (r: string)
    requires Maximal(s, p)
    ensures CutAt(s, r, p) && MayCut(s, r)
  {
    hide Dominates, Index;
    PhraseFits(s, p);
    r := s[..Index(s, p) + |p|];
    assert CutAt(s, r, p);
  }

  /** Maximal phrases are of one length, so where the first copy ends it also starts. */
  lemma SameCut(s: string, p: string, q: string)
    requires Maximal(s, p) && Maximal(s, q) && Index(s, p) + |p| == Index(s, q) + |q|
    ensures p == q
  {
    hide Dominates;
    PhraseFits(s, p);
    PhraseFits(s, q);
    assert OccursAt(s, p, Index(s, p)) && OccursAt(s, q, Index(s, q));
  }

  // ----- Planning instead of a summary -----

  const USER_ASKS := "\U{7528}\U{6237}\U{8981}\U{6C42}"
  const LET_ME_START := "\U{8BA9}\U{6211}\U{5F00}\U{59CB}"
  const DONE := "\U{5DF2}\U{5B8C}\U{6210}"
  const CURRENT := "\U{5F53}\U{524D}"

  const MARKERS := [
    USER_ASKS,
    LET_ME_START,
    "\U{6211}\U{9700}\U{8981}",
    "\U{5F00}\U{59CB}\U{5B9E}\U{65BD}",
    "\U{9010}\U{6B65}\U{91CD}\U{6784}",
    "\U{9010}\U{6B65}\U{5B9E}\U{65BD}",
    LET_ME_START + "\U{9010}\U{6B65}"]

  /** strings.Count, of a phrase that is not empty: copies that do not overlap. */
  function Count(s: string, phrase: string): nat
    requires phrase != ""
    decreases |s|
  {
    var i := Index(s, phrase);
    if i < 0 then 0 else 1 + Count(s[i + |phrase|..], phrase)
  }

  predicate Contains(s: string, phrase: string) {
    Index(s, phrase) >= 0
  }

  /** Where the second copy of the marker starts; -1 when there is none. */
  function SecondAt(s: string, marker: string): int {
    var first := Index(s, marker);
    if first < 0 then -1
    else
      var second := Index(s[first + |marker|..], marker);
      if second < 0 then -1 else first + |marker| + second
  }

  /** It is the first place behind the first copy where the marker stands. */
  lemma SecondIs(s: string, marker: string)
    ensures var first, cut := Index(s, marker), SecondAt(s, marker);
            && -1 <= cut <= |s|
            && (cut >= 0 ==> first >= 0 && first + |marker| <= cut && OccursAt(s, marker, cut))
            && (first >= 0 ==> forall j :: first + |marker| <= j && OccursAt(s, marker, j) ==> cut >= 0 && cut <= j)
  {
    hide Index, OccursAt;
    var first := Index(s, marker);
    if first != -1 {
      Fits(s, marker, first);
      var n := first + |marker|;
      var rest := s[n..];
      forall j: int | n <= j
        ensures OccursAt(s, marker, j) <==> OccursAt(rest, marker, j - n)
      {
        Shifted(s, marker, n, j);
      }
      if Index(rest, marker) != -1 {
        Fits(rest, marker, Index(rest, marker));
        assert OccursAt(s, marker, n + Index(rest, marker));
      }
    }
  }

  lemma Fits(s: string, t: string, j: int)
    requires OccursAt(s, t, j)
    ensures 0 <= j && j + |t| <= |s|
  {
  }

  lemma Shifted(s: string, t: string, n: nat, j: int)
    requires n <= j && n <= |s|
    ensures OccursAt(s, t, j) <==> OccursAt(s[n..], t, j - n)
  {
    if j + |t| <= |s| {
      assert s[n..][j - n..j - n + |t|] == s[j..j + |t|];
    }
  }

  /** What the code keeps in front of the second copy; nothing is cut when that would leave under 40 runes. */
  function CutAtSecond(s: string, marker: string): Option<string> {
    var cut := SecondAt(s, marker);
    SecondIs(s, marker);
    if cut < 0 || |TrimSpace(s[..cut])| < 40 then None else Some(TrimSpace(s[..cut]))
  }

  /** The marker stands there twice, with enough text in front of its second copy. */
  predicate Usable(s: string, k: nat)
    requires k < |MARKERS|
  {
    Count(s, MARKERS[k]) >= 2 && CutAtSecond(s, MARKERS[k]).Some?
  }

  /** The first marker of the list that can be used. */
  predicate FirstUsable(s: string, k: nat) {
    k < |MARKERS| && Usable(s, k) && forall j: nat :: j < k ==> !Usable(s, j)
  }

  predicate HasLoop(s: string) {
    exists k: nat :: k < |MARKERS| && Usable(s, k)
  }

  /** What the loop's removal makes of a trimmed text: the first usable marker of the list decides, and none keeps
      all. */
  ghost predicate WithoutLoop(s: string, r: string) {
    || (exists k: nat :: FirstUsable(s, k) && CutAtSecond(s, MARKERS[k]) == Some(r))
    || (!HasLoop(s) && r == s)
  }

  method TruncateAgentPlanningLoop(summary: string) returns (r: string, changed: bool)
    ensures changed <==> HasLoop(TrimSpace(summary))
    ensures !changed ==> r == summary
    ensures WithoutLoop(TrimSpace(summary), if changed then r else TrimSpace(summary))
  {
    hide TrimSpace, Count, CutAtSecond, WithoutLoop, HasLoop;
    r, changed := summary, false;
    var trimmed := TrimSpace(summary);
    NoLoopFound(trimmed);
    if trimmed == "" {
      NothingCounts();
      return;
    }
    var k := 0;
    while k < |MARKERS|
      invariant 0 <= k <= |MARKERS|
      invariant forall j: nat :: j < k ==> !Usable(trimmed, j)
    {
      if Count(trimmed, MARKERS[k]) >= 2 {
        var cut := CutAtSecond(trimmed, MARKERS[k]);
        if cut.Some? {
          LoopFound(trimmed, k, cut.value);
          return cut.value, true;
        }
      }
      k := k + 1;
    }
  }

  lemma LoopFound(s: string, k: nat, r: string)
    requires k < |MARKERS| && Count(s, MARKERS[k]) >= 2 && CutAtSecond(s, MARKERS[k]) == Some(r)
    requires forall j: nat :: j < k ==> !Usable(s, j)
    ensures HasLoop(s) && WithoutLoop(s, r)
  {
    hide Count, CutAtSecond;
    assert Usable(s, k) && FirstUsable(s, k);
  }

  lemma NoLoopFound(s: string)
    ensures (forall k: nat :: k < |MARKERS| ==> !Usable(s, k)) ==> !HasLoop(s) && WithoutLoop(s, s)
  {
  }

  lemma NothingCounts()
    ensures forall k: nat :: k < |MARKERS| ==> !Usable("", k)
  {
    forall k: nat | k < |MARKERS|
      ensures !Usable("", k)
    {
      assert Index("", MARKERS[k]) == -1;
    }
  }

  /** How many of the first `n` markers the text contains. */
  function MarkerHits(s: string, n: nat): nat
    requires n <= |MARKERS|
  {
    if n == 0 then 0 else MarkerHits(s, n - 1) + if Contains(s, MARKERS[n - 1]) then 1 else 0
  }

  predicate LooksLikePlanning(summary: string) {
    var s := TrimSpace(summary);
    s != "" &&
    (|| Contains(s, LET_ME_START)
     || Count(s, USER_ASKS) >= 2
     || Count(s, LET_ME_START) >= 2
     || (MarkerHits(s, |MARKERS|) >= 3 && |s| > 180 && !Contains(s, DONE) && !Contains(s, CURRENT)))
  }

  // ----- The same in plain numbers -----

  ghost predicate Has(s: string, t: string) {
    exists j :: OccursAt(s, t, j)
  }

  /** Two copies that do not overlap. */
  ghost predicate HasTwice(s: string, t: string) {
    exists i, j :: OccursAt(s, t, i) && OccursAt(s, t, j) && i + |t| <= j
  }

  lemma ContainsIff(s: string, t: string)
    ensures Contains(s, t) <==> Has(s, t)
  {
    hide OccursAt;
    if Contains(s, t) {
      assert OccursAt(s, t, Index(s, t));
    }
  }

  lemma CountsTwice(s: string, t: string)
    requires t != ""
    ensures Count(s, t) >= 2 <==> SecondAt(s, t) >= 0
    ensures SecondAt(s, t) >= 0 <==> HasTwice(s, t)
  {
    hide OccursAt, Index;
    SecondIs(s, t);
    var first := Index(s, t);
    if first >= 0 {
      Fits(s, t, first);
      CountsMore(s, t);
    } else {
      CountsNone(s, t);
    }
    if SecondAt(s, t) >= 0 {
      assert OccursAt(s, t, first) && OccursAt(s, t, SecondAt(s, t)) && first + |t| <= SecondAt(s, t);
    }
    if i, j :| OccursAt(s, t, i) && OccursAt(s, t, j) && i + |t| <= j {
      assert first != -1 && first <= i;
      Fits(s, t, first);
      Shifted(s, t, first + |t|, j);
      assert Index(s[first + |t|..], t) != -1;
    }
  }

  lemma CountsNone(s: string, t: string)
    requires t != "" && Index(s, t) < 0
    ensures Count(s, t) == 0
  {
    hide Index;
  }

  lemma CountsMore(s: string, t: string)
    requires t != "" && Index(s, t) >= 0 && Index(s, t) + |t| <= |s|
    ensures Count(s, t) >= 2 <==> Index(s[Index(s, t) + |t|..], t) >= 0
  {
    hide Index;
    var rest := s[Index(s, t) + |t|..];
    assert Count(s, t) == 1 + Count(rest, t);
    if Index(rest, t) >= 0 {
      Fits(rest, t, Index(rest, t));
    }
  }

  lemma {:induction false} HitsAre(s: string, n: nat)
    requires n <= |MARKERS|
    ensures MarkerHits(s, n) == |set k: nat | k < n && Contains(s, MARKERS[k])|
  {
    hide Contains;
    var all := set k: nat | k < n && Contains(s, MARKERS[k]);
    if n == 0 {
      assert all == {};
    } else {
      HitsAre(s, n - 1);
      var front := set k: nat | k < n - 1 && Contains(s, MARKERS[k]);
      assert all == front + if Contains(s, MARKERS[n - 1]) then {n - 1} else {};
    }
  }

  /** What is refused as planning: a text that says "let me start" once, or "the user asks" twice; or a longer one with
      three different markers that names nothing done and nothing current. */
  lemma PlanningIff(summary: string)
    ensures var s := TrimSpace(summary);
            LooksLikePlanning(summary) <==>
              || Has(s, "\U{8BA9}\U{6211}\U{5F00}\U{59CB}")
              || HasTwice(s, "\U{7528}\U{6237}\U{8981}\U{6C42}")
              || (|set k: nat | k < 7 && Contains(s, MARKERS[k])| >= 3 && |s| > 180
                  && !Has(s, "\U{5DF2}\U{5B8C}\U{6210}") && !Has(s, "\U{5F53}\U{524D}"))
  {
    hide TrimSpace, Contains, Count, OccursAt, MarkerHits;
    var s := TrimSpace(summary);
    ContainsIff(s, LET_ME_START);
    ContainsIff(s, DONE);
    ContainsIff(s, CURRENT);
    CountsTwice(s, USER_ASKS);
    CountsTwice(s, LET_ME_START);
    HitsAre(s, |MARKERS|);
    NothingInNothing(s);
    assert HasTwice(s, LET_ME_START) ==> Has(s, LET_ME_START);
  }

  lemma NothingInNothing(s: string)
    ensures Has(s, LET_ME_START) || HasTwice(s, USER_ASKS) ==> s != ""
  {
  }

  /** A marker can be used when it stands there twice and forty runes, trimmed, stand in front of its second copy. */
  lemma UsableIff(s: string, k: nat)
    requires k < |MARKERS|
    ensures Usable(s, k) <==>
              HasTwice(s, MARKERS[k]) && SecondAt(s, MARKERS[k]) <= |s|
              && SecondAt(s, MARKERS[k]) >= 0 && |TrimSpace(s[..SecondAt(s, MARKERS[k])])| >= 40
  {
    hide TrimSpace, Count, SecondAt, HasTwice;
    CountsTwice(s, MARKERS[k]);
    SecondIs(s, MARKERS[k]);
  }

  /** A phrase in a row: 12 to 200 runes, three times from the start. */
  lemma PeriodIff(s: string, p: nat)
    ensures IsPeriod(s, p) <==>
              12 <= p <= 200 && 3 * p <= |s| && s[p..2 * p] == s[..p] && s[2 * p..3 * p] == s[..p]
  {
  }

  /** A phrase all over the text: 12 to 200 runes and at most half of the text, which has 36 at least; it stands there
      three times, and its copies have 55 percent of the text. */
  lemma DominatesIff(s: string, phrase: string)
    ensures Dominates(s, phrase) <==>
              && |s| >= 36 && 12 <= |phrase| <= 200 && 2 * |phrase| <= |s|
              && Total(s, phrase) >= 3 && Total(s, phrase) * |phrase| * 100 >= 55 * |s|
  {
    hide Total;
    if |s| > 0 {
      AtLeastShare(Total(s, phrase) * |phrase| * 100, |s|);
    }
  }

  lemma AtLeastShare(x: nat, n: nat)
    requires n > 0
    ensures x / n >= 55 <==> x >= 55 * n
  {
    var q, r := x / n, x % n;
    assert x == q * n + r;
    if q >= 55 {
      assert (q - 55) * n >= 0;
    } else {
      assert (54 - q) * n >= 0;
    }
  }

  // ----- The whole -----

  datatype Sanitised = Ok(summary: string) | Empty | Repetitive | Planning

  /** Text that neither starts nor ends with white space. */
  predicate Trimmed(s: string) {
    TrimSpace(s) == s
  }

  lemma {:induction false} TrimStarts(s: string)
    ensures TrimSpace(s) != "" ==> !IsSpace(TrimSpace(s)[0])
    decreases |s|
  {
    if s != "" {
      if IsSpace(s[0]) {
        TrimStarts(s[1..]);
      } else if IsSpace(s[|s| - 1]) {
        TrimStarts(s[..|s| - 1]);
      }
    }
  }

  /** Trimming the front part of a text that starts with no white space leaves a front part, and not nothing. */
  lemma {:induction false} TrimFront(s: string, n: nat)
    requires 0 < n <= |s| && !IsSpace(s[0])
    ensures var t := TrimSpace(s[..n]); t != "" && t <= s
    decreases n
  {
    var front := s[..n];
    if IsSpace(front[n - 1]) {
      TrimFront(s, n - 1);
      assert front[..n - 1] == s[..n - 1];
    }
  }

  /** One more cut keeps a front part of the summary. */
  lemma CutFront(whole: string, r: string)
    requires whole != "" && Trimmed(whole) && r != "" && r <= whole
    ensures var t := TrimSpace(r); t != "" && t <= whole && Trimmed(t)
  {
    TrimStarts(whole);
    TrimFront(whole, |r|);
    assert whole[..|r|] == r;
    TrimSpaceIdempotent(r);
  }

  lemma CutAtSecondIsFront(s: string, marker: string)
    requires CutAtSecond(s, marker).Some?
    ensures SecondAt(s, marker) > 0 && SecondAt(s, marker) <= |s|
    ensures CutAtSecond(s, marker).value == TrimSpace(s[..SecondAt(s, marker)])
  {
    SecondIs(s, marker);
  }

  ghost predicate NoRepetition(s: string) {
    (forall p: nat :: !IsPeriod(s, p)) && forall p: string :: !Dominates(s, p)
  }

  predicate NoLoop(s: string) {
    forall k :: 0 <= k < |MARKERS| ==> Count(s, MARKERS[k]) < 2
  }

  /** What the removal of repetition makes of a text: the phrase in a row comes before the phrase all over the text. */
  ghost predicate WithoutRepetition(s: string, r: string) {
    || (exists p: nat :: CutToPeriod(s, r, p))
    || ((forall p: nat :: !IsPeriod(s, p)) && exists phrase: string :: CutAt(s, r, phrase))
    || (NoRepetition(s) && r == s)
  }

  method TruncateRepetitive(s: string) returns (r: string, changed: bool)
    requires s != ""
    ensures changed <==> !NoRepetition(s)
    ensures !changed ==> r == s
    ensures r != "" && r <= s
    ensures WithoutRepetition(s, r)
  {
    hide Dominates, IsPeriod, Index;
    var truncated, ok := TruncateConsecutiveRepeat(s);
    PeriodsFit(s);
    if ok {
      return truncated, true;
    }
    ghost var phrase;
    truncated, ok, phrase := TruncateDominantRepeatedPhrase(s);
    if ok {
      PhraseFits(s, phrase);
      LengthOfDominating(s);
      return truncated, true;
    }
    return s, false;
  }

  lemma PeriodsFit(s: string)
    ensures forall p: nat :: IsPeriod(s, p) ==> 0 < p <= |s|
  {
  }

  /** What the checks at the end make of the text. */
  function Judged(summary: string): Sanitised {
    if summary == "" then Repetitive else if LooksLikePlanning(summary) then Planning else Ok(summary)
  }

  /** From the trimmed input: repetition goes, then the loop, with a trim behind each. */
  ghost predicate Shortened(whole: string, cut: string, rest: string) {
    WithoutRepetition(whole, cut) && WithoutLoop(TrimSpace(cut), rest)
  }

  /** The results that are possible for a trimmed text, whatever the order in which maps are ranged. */
  ghost predicate Possible(whole: string, r: Sanitised) {
    exists cut: string, rest: string :: Shortened(whole, cut, rest) && r == Judged(TrimSpace(rest))
  }

  /** The text alone decides what is cut. */
  ghost predicate Determined(s: string) {
    (exists p: nat :: IsPeriod(s, p)) || OneMaximal(s)
  }

  /** What is left when repetition is removed depends on the text alone exactly when a phrase stands three times in a
      row at its start, or at most one dominating phrase is maximal. */
  lemma RepetitionUniqueIff(s: string)
    ensures (forall r: string, r': string :: WithoutRepetition(s, r) && WithoutRepetition(s, r') ==> r == r')
            <==> Determined(s)
  {
    hide IsPeriod, Maximal, OneMaximal, CutAt, CutToPeriod, MayCut;
    CutUniqueIff(s);
    if p: nat :| IsPeriod(s, p) {
      forall r: string, r': string | WithoutRepetition(s, r) && WithoutRepetition(s, r')
        ensures r == r'
      {
        FirstPeriod(s, r, r');
      }
    } else {
      forall r: string
        ensures WithoutRepetition(s, r) <==> MayCut(s, r) || (NoRepetition(s) && r == s)
        ensures MayCut(s, r) ==> !NoRepetition(s)
      {
        OnlyCuts(s, r);
      }
    }
  }

  lemma FirstPeriod(s: string, r: string, r': string)
    requires (exists p: nat :: IsPeriod(s, p)) && WithoutRepetition(s, r) && WithoutRepetition(s, r')
    ensures r == r'
  {
    hide IsPeriod, CutAt, Dominates;
    var p: nat, q: nat :| CutToPeriod(s, r, p) && CutToPeriod(s, r', q);
    assert p == q;
  }

  lemma OnlyCuts(s: string, r: string)
    requires forall p: nat :: !IsPeriod(s, p)
    ensures WithoutRepetition(s, r) <==> MayCut(s, r) || (NoRepetition(s) && r == s)
    ensures MayCut(s, r) ==> !NoRepetition(s)
  {
    hide IsPeriod, Dominates, Index;
  }

  /** The rest is decided by the text: the first usable marker, and the checks at the end. */
  lemma ResultUnique(s: string, r: Sanitised, r': Sanitised)
    requires Determined(s) && Possible(s, r) && Possible(s, r')
    ensures r == r'
  {
    hide WithoutRepetition, Determined, WithoutLoop, TrimSpace, Judged;
    RepetitionUniqueIff(s);
    var cut: string, rest: string :| Shortened(s, cut, rest) && r == Judged(TrimSpace(rest));
    var cut': string, rest': string :| Shortened(s, cut', rest') && r' == Judged(TrimSpace(rest'));
    assert cut == cut';
    LoopUnique(TrimSpace(cut), rest, rest');
  }

  lemma LoopUnique(s: string, r: string, r': string)
    requires WithoutLoop(s, r) && WithoutLoop(s, r')
    ensures r == r'
  {
    hide Usable, CutAtSecond, HasLoop;
    LoopIs(s, r);
    LoopIs(s, r');
    if HasLoop(s) {
      var k: nat :| FirstUsable(s, k) && CutAtSecond(s, MARKERS[k]) == Some(r);
      var j: nat :| FirstUsable(s, j) && CutAtSecond(s, MARKERS[j]) == Some(r');
      assert k == j;
    }
  }

  lemma LoopIs(s: string, r: string)
    requires WithoutLoop(s, r)
    ensures if HasLoop(s) then exists k: nat :: FirstUsable(s, k) && CutAtSecond(s, MARKERS[k]) == Some(r) else r == s
  {
    hide Usable, CutAtSecond;
  }

  /** What is accepted is a front part of the trimmed summary, trimmed and not empty: the part in front of the
      repetition and of the planning. The error for a summary that truncation would leave empty never occurs. */
  method SanitizeMemoryCompactionSummary(input: string) returns (r: Sanitised)
    ensures r == Empty <==> TrimSpace(input) == ""
    ensures r != Repetitive
    ensures r != Empty ==> Possible(TrimSpace(input), r)
    ensures r != Empty && Determined(TrimSpace(input)) ==> forall r' :: Possible(TrimSpace(input), r') ==> r' == r
    ensures r.Ok? ==> r.summary != "" && r.summary <= TrimSpace(input) && Trimmed(r.summary)
    ensures r.Ok? ==> !LooksLikePlanning(r.summary)
    ensures r.Ok? ==>
              && !Has(r.summary, "\U{8BA9}\U{6211}\U{5F00}\U{59CB}")
              && !HasTwice(r.summary, "\U{7528}\U{6237}\U{8981}\U{6C42}")
    ensures var s := TrimSpace(input); s != "" && NoRepetition(s) && NoLoop(s) ==> r == Judged(s)
  {
    hide TrimSpace, LooksLikePlanning, NoRepetition, NoLoop, WithoutRepetition, WithoutLoop, Possible, Determined;
    var summary := TrimSpace(input);
    TrimSpaceIdempotent(input);
    ghost var whole := summary;
    if summary == "" {
      return Empty;
    }
    var truncated, changed := TruncateRepetitive(summary);
    ghost var cut := truncated;
    CutFront(whole, cut);
    if changed {
      summary := TrimSpace(truncated);
    }
    ghost var kept := summary;
    truncated, changed := TruncateAgentPlanningLoop(summary);
    ghost var rest := if changed then truncated else kept;
    LoopFront(whole, kept, rest);
    if changed {
      summary := TrimSpace(truncated);
    }
    assert Shortened(whole, cut, rest) && summary == TrimSpace(rest);
    OnlyResult(whole, cut, rest);
    CleanStays(whole, cut, rest);
    if summary == "" {
      return Repetitive;
    }
    PlanningIff(summary);
    if LooksLikePlanning(summary) {
      return Planning;
    }
    return Ok(summary);
  }

  /** The loop's removal keeps a front part too. */
  lemma LoopFront(whole: string, kept: string, rest: string)
    requires whole != "" && Trimmed(whole) && kept != "" && kept <= whole && Trimmed(kept) && WithoutLoop(kept, rest)
    ensures var t := TrimSpace(rest); t != "" && t <= whole && Trimmed(t)
  {
    hide TrimSpace, Count, CutAtSecond, SecondAt;
    if k: nat :| FirstUsable(kept, k) && CutAtSecond(kept, MARKERS[k]) == Some(rest) {
      CutAtSecondIsFront(kept, MARKERS[k]);
      var front := kept[..SecondAt(kept, MARKERS[k])];
      CutFront(whole, front);
      TrimSpaceIdempotent(front);
    }
  }

  lemma OnlyResult(whole: string, cut: string, rest: string)
    requires Shortened(whole, cut, rest)
    ensures var r := Judged(TrimSpace(rest));
            Possible(whole, r) && (Determined(whole) ==> forall r' :: Possible(whole, r') ==> r' == r)
  {
    hide WithoutRepetition, Determined, WithoutLoop, TrimSpace, Judged;
    var r := Judged(TrimSpace(rest));
    assert Possible(whole, r);
    forall r' | Determined(whole) && Possible(whole, r')
      ensures r' == r
    {
      ResultUnique(whole, r, r');
    }
  }

  /** A summary without repetition and without a planning loop stays as it is. */
  lemma CleanStays(whole: string, cut: string, rest: string)
    requires Trimmed(whole) && Shortened(whole, cut, rest)
    ensures NoRepetition(whole) && NoLoop(whole) ==> rest == whole
  {
    hide TrimSpace, Count, CutAtSecond, IsPeriod, Dominates;
  }
}

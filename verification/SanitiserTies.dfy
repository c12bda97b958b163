/** agent/session/memory_compaction_output.go: a summary of which two different front parts may be kept, depending on
    the order in which Go ranges over a map. */
module SanitiserTies {
  import opened GoStrings
  import opened Sanitiser

  function TieByte(i: nat): char {
    if i == 0 then 'b' else if i <= 30 then 'a' else if i == 31 then 'c' else 'd'
  }

  /** A `b`, thirty `a`, a `c`, thirty `d`. */
  function Tie(): (s: string)
    ensures |s| == 62 && forall i :: 0 <= i < 62 ==> s[i] == TieByte(i)
  {
    seq(62, i requires 0 <= i < 62 => TieByte(i))
  }

  /** Twelve times the same. */
  function Dozen(c: char): (s: string)
    ensures |s| == 12 && forall i :: 0 <= i < 12 ==> s[i] == c
  {
    seq(12, i requires 0 <= i < 12 => c)
  }

  // ----- Counting occurrences -----

  function Within(n: nat, lo: nat, hi: nat): int {
    if n <= lo then 0 else Min(n, hi) - lo
  }

  lemma {:induction false} OccursWithin(s: string, p: string, n: nat, lo: nat, hi: nat)
    requires lo <= hi && forall i: nat :: i < n && OccursAt(s, p, i) ==> lo <= i < hi
    ensures Occurrences(s, p, n) <= Within(n, lo, hi)
  {
    hide OccursAt;
    if n > 0 {
      OccursWithin(s, p, n - 1, lo, hi);
    }
  }

  lemma {:induction false} OccursExactly(s: string, p: string, n: nat, lo: nat, hi: nat)
    requires lo <= hi && forall i: nat :: i < n ==> (OccursAt(s, p, i) <==> lo <= i < hi)
    ensures Occurrences(s, p, n) == Within(n, lo, hi)
  {
    hide OccursAt;
    if n > 0 {
      OccursExactly(s, p, n - 1, lo, hi);
    }
  }

  /** The bytes of a phrase are those of the text where it stands. */
  lemma ByteAt(p: string, i: nat, k: nat)
    requires OccursAt(Tie(), p, i) && k < |p|
    ensures i + |p| <= 62 && p[k] == TieByte(i + k)
  {
    assert p[k] == Tie()[i..i + |p|][k];
  }

  /** Twelve equal runes stand exactly where the text has them. */
  lemma DozenAt(c: char, i: nat)
    requires c == 'a' || c == 'd'
    ensures OccursAt(Tie(), Dozen(c), i) <==> if c == 'a' then 1 <= i < 20 else 32 <= i < 51
  {
    hide Tie, Dozen;
    if OccursAt(Tie(), Dozen(c), i) {
      ByteAt(Dozen(c), i, 0);
      ByteAt(Dozen(c), i, 11);
    }
    if i + 12 <= 62 && (if c == 'a' then 1 <= i < 20 else 32 <= i < 51) {
      assert Tie()[i..i + 12] == Dozen(c);
    }
  }

  lemma DozenTotal(c: char)
    requires c == 'a' || c == 'd'
    ensures Total(Tie(), Dozen(c)) == 19 && Dominates(Tie(), Dozen(c))
    ensures Index(Tie(), Dozen(c)) == if c == 'a' then 1 else 32
  {
    hide Tie, Dozen, OccursAt, Occurrences, Index;
    var lo := if c == 'a' then 1 else 32;
    forall i: nat
      ensures OccursAt(Tie(), Dozen(c), i) <==> lo <= i < lo + 19
    {
      DozenAt(c, i);
    }
    OccursExactly(Tie(), Dozen(c), 62, lo, lo + 19);
    IndexIs(Tie(), Dozen(c), lo);
  }

  /** No phrase of twelve runes or more stands there more than nineteen times, and no longer one as often. */
  lemma TieTotal(p: string)
    requires |p| >= 12
    ensures Total(Tie(), p) <= if |p| <= 29 then 31 - |p| else 1
  {
    hide Tie, OccursAt, Occurrences, TieByte;
    var s, n := Tie(), |p|;
    if i: nat :| i < 62 && OccursAt(s, p, i) {
      ByteAt(p, i, 0);
      ByteAt(p, i, n - 1);
      if 1 <= i && i + n <= 31 {
        InRun(p, i, 1, 31, 'a');
        OccursWithin(s, p, 62, 1, 32 - n);
      } else if i >= 32 {
        InRun(p, i, 32, 62, 'd');
        OccursWithin(s, p, 62, 32, 63 - n);
      } else {
        OnlyPlace(p, i);
        OccursWithin(s, p, 62, i, i + 1);
      }
    } else {
      OccursWithin(s, p, 62, 0, 0);
    }
  }

  /** A phrase of one rune stays within that rune's run. */
  lemma InRun(p: string, i: nat, lo: nat, hi: nat, c: char)
    requires p != "" && OccursAt(Tie(), p, i) && lo <= i && i + |p| <= hi
    requires (lo == 1 && hi == 31 && c == 'a') || (lo == 32 && hi == 62 && c == 'd')
    ensures forall j: nat :: OccursAt(Tie(), p, j) ==> lo <= j && j + |p| <= hi
  {
    hide OccursAt, Tie;
    ByteAt(p, i, 0);
    ByteAt(p, i, |p| - 1);
    forall j: nat | OccursAt(Tie(), p, j)
      ensures lo <= j && j + |p| <= hi
    {
      ByteAt(p, j, 0);
      ByteAt(p, j, |p| - 1);
    }
  }

  /** A phrase with the `b` or the `c` in it stands there once. */
  lemma OnlyPlace(p: string, i: nat)
    requires OccursAt(Tie(), p, i) && p != "" && (i == 0 || (i <= 31 < i + |p|))
    ensures forall j: nat :: OccursAt(Tie(), p, j) ==> j == i
  {
    hide OccursAt, Tie;
    var k := if i == 0 then 0 else 31 - i;
    ByteAt(p, i, k);
    forall j: nat | OccursAt(Tie(), p, j)
      ensures j == i
    {
      ByteAt(p, j, k);
    }
  }

  // ----- The two results -----

  lemma DozenMaximal(c: char)
    requires c == 'a' || c == 'd'
    ensures Maximal(Tie(), Dozen(c))
  {
    hide Tie, Dozen, Total, Covers;
    DozenTotal(c);
    forall other: string | Dominates(Tie(), other)
      ensures Total(Tie(), other) < 19 || (Total(Tie(), other) == 19 && |other| <= 12)
    {
      TieTotal(other);
    }
  }

  lemma PeriodByte(s: string, p: nat)
    requires IsPeriod(s, p)
    ensures 0 < p < |s| && s[p] == s[0]
  {
    assert s[p..2 * p][0] == s[..p][0];
  }

  /** Its first rune never comes again. */
  lemma NoPeriod()
    ensures forall p: nat :: !IsPeriod(Tie(), p)
  {
    hide Tie, IsPeriod;
    forall p: nat
      ensures !IsPeriod(Tie(), p)
    {
      if IsPeriod(Tie(), p) {
        PeriodByte(Tie(), p);
      }
    }
  }

  function Front(c: char): string {
    Tie()[..if c == 'a' then 13 else 44]
  }

  lemma FrontIsCut(c: char)
    requires c == 'a' || c == 'd'
    ensures CutAt(Tie(), Front(c), Dozen(c)) && WithoutRepetition(Tie(), Front(c))
  {
    hide Tie, Dozen, Maximal, IsPeriod, Index;
    DozenMaximal(c);
    DozenTotal(c);
    NoPeriod();
    assert CutAt(Tie(), Front(c), Dozen(c));
  }

  /** Texts of these letters have no marker in them. */
  predicate Letters(s: string) {
    forall i :: 0 <= i < |s| ==> 'a' <= s[i] <= 'd'
  }

  lemma FirstByteOf(s: string, m: string, i: int)
    requires OccursAt(s, m, i) && m != ""
    ensures 0 <= i < |s| && s[i] == m[0]
  {
    assert s[i] == s[i..i + |m|][0];
  }

  lemma NoMarker(s: string, k: nat)
    requires Letters(s) && k < |MARKERS|
    ensures !Contains(s, MARKERS[k]) && Count(s, MARKERS[k]) == 0
  {
    hide Index, OccursAt;
    var m := MARKERS[k];
    if Index(s, m) != -1 {
      FirstByteOf(s, m, Index(s, m));
    }
  }

  lemma {:induction false} NoHits(s: string, n: nat)
    requires Letters(s) && n <= |MARKERS|
    ensures MarkerHits(s, n) == 0
  {
    hide Contains, Count;
    if n > 0 {
      NoHits(s, n - 1);
      NoMarker(s, n - 1);
    }
  }

  lemma PlainText(s: string)
    requires Letters(s) && s != ""
    ensures TrimSpace(s) == s && WithoutLoop(s, s) && Judged(s) == Ok(s)
  {
    hide Contains, Count, CutAtSecond;
    forall k: nat | k < |MARKERS|
      ensures !Contains(s, MARKERS[k]) && Count(s, MARKERS[k]) == 0
    {
      NoMarker(s, k);
    }
    NoHits(s, |MARKERS|);
    assert MARKERS[0] == USER_ASKS && MARKERS[1] == LET_ME_START;
  }

  lemma FrontIsPossible(c: char)
    requires c == 'a' || c == 'd'
    ensures TrimSpace(Tie()) == Tie() && Possible(Tie(), Ok(Front(c)))
  {
    hide WithoutRepetition, WithoutLoop, Judged, TrimSpace;
    PlainText(Tie());
    PlainText(Front(c));
    FrontIsCut(c);
    assert Shortened(Tie(), Front(c), Front(c));
  }

  /** The text does not decide what is kept of it: thirteen runes or forty-four, as the map is ranged. */
  lemma OrderDecides()
    ensures TrimSpace(Tie()) == Tie() && !Determined(Tie())
    ensures Possible(Tie(), Ok(Tie()[..13])) && Possible(Tie(), Ok(Tie()[..44]))
  {
    hide Possible, Determined, TrimSpace;
    FrontIsPossible('a');
    FrontIsPossible('d');
    if Determined(Tie()) {
      ResultUnique(Tie(), Ok(Tie()[..13]), Ok(Tie()[..44]));
    }
  }
}

/** The parts of Go's `strings` package that the modelled code leans on.
    A Go string is a sequence of bytes (or, where the source ranges over runes,
    of runes); both are modelled as `string`, one `char` for each unit. */
module GoStrings {

  datatype Option<+T> = None | Some(value: T)

  /** unicode.IsSpace. */
  predicate IsSpace(c: char) {
    || '\t' <= c <= '\r' || c == ' ' || c == '\U{0085}' || c == '\U{00A0}' || c == '\U{1680}'
    || '\U{2000}' <= c <= '\U{200A}' || c == '\U{2028}' || c == '\U{2029}' || c == '\U{202F}'
    || c == '\U{205F}' || c == '\U{3000}'
  }

  /** strings.TrimSpace. */
  function TrimSpace(s: string): (r: string)
    ensures |r| <= |s|
    decreases |s|
  {
    if s == "" then ""
    else if IsSpace(s[0]) then TrimSpace(s[1..])
    else if IsSpace(s[|s| - 1]) then TrimSpace(s[..|s| - 1])
    else s
  }

  lemma {:induction false} TrimSpaceIdempotent(s: string)
    ensures TrimSpace(TrimSpace(s)) == TrimSpace(s)
    decreases |s|
  {
    if s == "" {
    } else if IsSpace(s[0]) {
      TrimSpaceIdempotent(s[1..]);
    } else if IsSpace(s[|s| - 1]) {
      TrimSpaceIdempotent(s[..|s| - 1]);
    }
  }

  predicate OnlySpace(s: string) {
    forall i :: 0 <= i < |s| ==> IsSpace(s[i])
  }

  /** Among the ASCII characters the blank and those from tab to carriage return are white space. */
  lemma AsciiSpaces(c: char)
    requires c < '\U{0080}'
    ensures IsSpace(c) <==> c == ' ' || c == '\t' || c == '\n' || c == '\U{000B}' || c == '\U{000C}' || c == '\r'
  {
  }

  /** White space goes from both ends, and nothing else goes. */
  lemma {:induction false} TrimSpaceIs(s: string) returns (a: string, b: string)
    ensures s == a + TrimSpace(s) + b && OnlySpace(a) && OnlySpace(b)
    ensures TrimSpace(s) != "" ==> !IsSpace(TrimSpace(s)[0]) && !IsSpace(TrimSpace(s)[|TrimSpace(s)| - 1])
    decreases |s|
  {
    hide IsSpace;
    if s == "" {
      return "", "";
    } else if IsSpace(s[0]) {
      a, b := TrimSpaceIs(s[1..]);
      assert s == [s[0]] + s[1..];
      a := [s[0]] + a;
    } else if IsSpace(s[|s| - 1]) {
      a, b := TrimSpaceIs(s[..|s| - 1]);
      assert s == s[..|s| - 1] + [s[|s| - 1]];
      b := b + [s[|s| - 1]];
    } else {
      return "", "";
    }
  }

  predicate OccursAt(s: string, t: string, j: int) {
    0 <= j && j + |t| <= |s| && s[j..j + |t|] == t
  }

  lemma OccursAtFront(s: string, t: string)
    ensures OccursAt(s, t, 0) <==> t <= s
  {
  }

  lemma OccursInTail(s: string, t: string, j: nat)
    requires s != ""
    ensures OccursAt(s[1..], t, j) == OccursAt(s, t, j + 1)
  {
    if j + 1 + |t| <= |s| {
      assert s[1..][j..j + |t|] == s[j + 1..j + 1 + |t|];
    }
  }

  /** The first position at or after `from` at which `t` occurs in `s`; -1 when there is none. */
  function IndexFrom(s: string, t: string, from: nat): (i: int)
    ensures i == -1 || (from <= i && OccursAt(s, t, i))
    ensures forall j :: from <= j && OccursAt(s, t, j) ==> i != -1 && i <= j
    decreases |s| - from
  {
    if from + |t| > |s| then -1
    else if OccursAt(s, t, from) then from
    else IndexFrom(s, t, from + 1)
  }

  /** strings.Index. */
  function Index(s: string, t: string): (i: int)
    ensures i == -1 || OccursAt(s, t, i)
    ensures forall j :: OccursAt(s, t, j) ==> i != -1 && i <= j
  {
    IndexFrom(s, t, 0)
  }

  function Concat(values: seq<string>): string {
    if values == [] then "" else Concat(values[..|values| - 1]) + values[|values| - 1]
  }

  lemma ConcatSnoc(values: seq<string>, value: string)
    ensures Concat(values + [value]) == Concat(values) + value
  {
    assert (values + [value])[..|values|] == values;
  }

  lemma Assoc<T>(a: seq<T>, b: seq<T>, c: seq<T>)
    ensures (a + b) + c == a + (b + c)
  {
  }

  /** The next key of a range over a Go map or set: any one that is left. */
  method AnyOf<T(==)>(s: set<T>) returns (x: T)
    requires s != {}
    ensures x in s
  {
    x :| x in s;
  }
}

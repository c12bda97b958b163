/** agent/core_agent/tool_repeat_watchdog.go and silent_tool_watchdog.go: when the two trackers of a run warn.
    A fingerprint of a call stands for its tool and arguments; it is empty for a call without a tool name. */
module Watchdogs {
  const DEFAULT_REPEATED_TOOL_CALL_THRESHOLD := 5
  const DEFAULT_REMINDER_INTERVAL := 10
  const DEFAULT_SILENT_TOOL_CALL_THRESHOLD := 10

  /** The first of the thresholds that is positive. */
  function Effective(given: int, own: int, default: int): (t: int)
    requires default > 0
    ensures t > 0 && (given > 0 ==> t == given) && (given <= 0 < own ==> t == own)
  {
    if given > 0 then given else if own > 0 then own else default
  }

  // ----- Repeated calls -----

  datatype Repeats = Repeats(threshold: int, lastKey: string, count: nat, lastWarnedCount: nat)

  /** One observation: the state after it, and whether it warns. */
  function Observed(t: Repeats, key: string, threshold: int): (Repeats, bool) {
    var limit := Effective(threshold, t.threshold, DEFAULT_REPEATED_TOOL_CALL_THRESHOLD);
    if key == "" then (Repeats(limit, "", 0, 0), false)
    else
      var count := if key == t.lastKey then t.count + 1 else 1;
      var warned := if key == t.lastKey then t.lastWarnedCount else 0;
      var fires := count >= limit && (warned == 0 || count - warned >= DEFAULT_REMINDER_INTERVAL);
      (Repeats(limit, key, count, if fires then count else warned), fires)
  }

  class ToolRepeatTracker {
    var threshold: int
    var lastKey: string
    var count: nat
    var lastWarnedCount: nat

    constructor (threshold: int)
      ensures Value() == Repeats(Effective(threshold, 0, DEFAULT_REPEATED_TOOL_CALL_THRESHOLD), "", 0, 0)
    {
      this.threshold := if threshold <= 0 then DEFAULT_REPEATED_TOOL_CALL_THRESHOLD else threshold;
      lastKey, count, lastWarnedCount := "", 0, 0;
    }

    function Value(): Repeats
      reads this
    {
      Repeats(threshold, lastKey, count, lastWarnedCount)
    }

    method Observe(key: string, given: int) returns (seen: nat, triggered: bool)
      modifies this
      ensures (Value(), triggered) == Observed(old(Value()), key, given) && seen == count
    {
      var limit := given;
      if limit <= 0 {
        limit := threshold;
      }
      if limit <= 0 {
        limit := DEFAULT_REPEATED_TOOL_CALL_THRESHOLD;
      }
      threshold := limit;
      if key == "" {
        lastKey, count, lastWarnedCount := "", 0, 0;
        return 0, false;
      }
      if key == lastKey {
        count := count + 1;
      } else {
        lastKey, count, lastWarnedCount := key, 1, 0;
      }
      if count < limit {
        return count, false;
      }
      if lastWarnedCount == 0 {
        lastWarnedCount := count;
        return count, true;
      }
      if count - lastWarnedCount >= DEFAULT_REMINDER_INTERVAL {
        lastWarnedCount := count;
        return count, true;
      }
      return count, false;
    }
  }

  /** One call of the tool runner: its fingerprint and the threshold in force. */
  datatype Call = Call(key: string, threshold: int)

  /** The tracker after a history of calls. */
  function RepeatsAfter(start: int, calls: seq<Call>): Repeats {
    if calls == [] then Repeats(start, "", 0, 0)
    else var last := calls[|calls| - 1]; Observed(RepeatsAfter(start, calls[..|calls| - 1]), last.key, last.threshold).0
  }

  /** Does call `k` of the history warn? */
  predicate WarnsAt(start: int, calls: seq<Call>, k: nat)
    requires k < |calls|
  {
    Observed(RepeatsAfter(start, calls[..k]), calls[k].key, calls[k].threshold).1
  }

  /** `r` is the length of the trailing run of equal fingerprints, zero behind an empty one. */
  predicate TrailingRun(calls: seq<Call>, r: nat) {
    && r <= |calls|
    && (r == 0 <==> calls == [] || calls[|calls| - 1].key == "")
    && (forall k :: |calls| - r <= k < |calls| ==> calls[k].key == calls[|calls| - 1].key)
    && (0 < r < |calls| ==> calls[|calls| - r - 1].key != calls[|calls| - 1].key)
  }

  lemma {:induction false} CountIsTrailingRun(start: int, calls: seq<Call>)
    ensures var t := RepeatsAfter(start, calls);
            && TrailingRun(calls, t.count)
            && (t.lastKey == if calls == [] then "" else calls[|calls| - 1].key)
    decreases |calls|
  {
    if calls != [] {
      var n := |calls| - 1;
      var t, before, key := RepeatsAfter(start, calls), RepeatsAfter(start, calls[..n]), calls[n].key;
      CountIsTrailingRun(start, calls[..n]);
      assert t.count == if key == "" then 0 else if key == before.lastKey then before.count + 1 else 1;
      if key != "" && key == before.lastKey {
        RunGrows(calls, before.count);
      } else {
        assert n > 0 ==> calls[..n][n - 1] == calls[n - 1];
      }
    }
  }

  lemma RunGrows(calls: seq<Call>, r: nat)
    requires |calls| > 1 && TrailingRun(calls[..|calls| - 1], r)
    requires calls[|calls| - 1].key == calls[|calls| - 2].key != ""
    ensures TrailingRun(calls, r + 1)
  {
    var n := |calls| - 1;
    assert forall k :: 0 <= k < n ==> calls[..n][k] == calls[k];
  }

  /** The count at which the tracker last warned, when the threshold is always `limit`. */
  function LastWarning(count: nat, limit: int): nat
    requires limit > 0
  {
    if count < limit then 0 else count - (count - limit) % DEFAULT_REMINDER_INTERVAL
  }

  lemma {:induction false} LastWarned(start: int, calls: seq<Call>, limit: int)
    requires limit > 0
    requires forall k ::
               0 <= k < |calls| ==> Effective(calls[k].threshold, start, DEFAULT_REPEATED_TOOL_CALL_THRESHOLD) == limit
    ensures var t := RepeatsAfter(start, calls);
            t.lastWarnedCount == LastWarning(t.count, limit) && (calls != [] ==> t.threshold == limit)
    decreases |calls|
  {
    if calls != [] {
      var n := |calls| - 1;
      LastWarned(start, calls[..n], limit);
      CountIsTrailingRun(start, calls[..n]);
      OneMoreWarned(RepeatsAfter(start, calls[..n]), calls[n], start, limit);
    }
  }

  lemma OneMoreWarned(t: Repeats, call: Call, start: int, limit: int)
    requires limit > 0 && t.lastWarnedCount == LastWarning(t.count, limit) && (t.lastKey == "" ==> t.count == 0)
    requires Effective(call.threshold, start, DEFAULT_REPEATED_TOOL_CALL_THRESHOLD) == limit
    requires (t.threshold == limit || t.threshold == start)
    ensures var (u, fires) := Observed(t, call.key, call.threshold);
            && u.lastWarnedCount == LastWarning(u.count, limit) && u.threshold == limit
            && (fires <==> u.count >= limit && (u.count - limit) % DEFAULT_REMINDER_INTERVAL == 0)
  {
  }

  /** With one threshold a call warns exactly when it is the limit-th of its run, or ten, twenty, ... after that. */
  lemma WarningSchedule(start: int, calls: seq<Call>, limit: int, k: nat, r: nat)
    requires limit > 0
    requires forall i ::
               0 <= i < |calls| ==> Effective(calls[i].threshold, start, DEFAULT_REPEATED_TOOL_CALL_THRESHOLD) == limit
    requires k < |calls| && TrailingRun(calls[..k + 1], r)
    ensures WarnsAt(start, calls, k) <==> r >= limit && (r - limit) % 10 == 0
  {
    hide TrailingRun, LastWarning, Effective, Observed;
    assert calls[..k + 1][..k] == calls[..k];
    LastWarned(start, calls[..k], limit);
    CountIsTrailingRun(start, calls[..k]);
    OneMoreWarned(RepeatsAfter(start, calls[..k]), calls[k], start, limit);
    CountIsTrailingRun(start, calls[..k + 1]);
    RunsAgree(calls[..k + 1], r, RepeatsAfter(start, calls[..k + 1]).count);
  }

  /** The threshold is what the calls bring, else what the tracker was made with, else five. */
  lemma ScheduleOf(start: int, calls: seq<Call>, given: int, k: nat, r: nat)
    requires forall i :: 0 <= i < |calls| ==> calls[i].threshold == given
    requires k < |calls| && TrailingRun(calls[..k + 1], r)
    ensures given > 0 ==> (WarnsAt(start, calls, k) <==> r >= given && (r - given) % 10 == 0)
    ensures given <= 0 && start > 0 ==> (WarnsAt(start, calls, k) <==> r >= start && (r - start) % 10 == 0)
    ensures given <= 0 && start <= 0 ==> (WarnsAt(start, calls, k) <==> r >= 5 && (r - 5) % 10 == 0)
  {
    hide WarnsAt, TrailingRun;
    WarningSchedule(start, calls, if given > 0 then given else if start > 0 then start else 5, k, r);
  }

  lemma RunsAgree(calls: seq<Call>, r: nat, s: nat)
    requires TrailingRun(calls, r) && TrailingRun(calls, s)
    ensures r == s
  {
  }

  // ----- Silent calls -----

  datatype Silence = Silence(threshold: int, count: nat, warned: bool)

  /** A tool call with the threshold in force, or visible output of the model. */
  datatype Event = ToolCall(threshold: int) | Output

  function Heard(s: Silence, e: Event): (Silence, bool) {
    match e
    case Output => (s.(count := 0, warned := false), false)
    case ToolCall(threshold) =>
      var limit := Effective(threshold, s.threshold, DEFAULT_SILENT_TOOL_CALL_THRESHOLD);
      var fires := !s.warned && s.count + 1 >= limit;
      (Silence(limit, s.count + 1, s.warned || fires), fires)
  }

  class SilentToolTracker {
    var threshold: int
    var count: nat
    var warned: bool

    constructor (threshold: int)
      ensures Value() == Silence(Effective(threshold, 0, DEFAULT_SILENT_TOOL_CALL_THRESHOLD), 0, false)
    {
      this.threshold := if threshold <= 0 then DEFAULT_SILENT_TOOL_CALL_THRESHOLD else threshold;
      count, warned := 0, false;
    }

    function Value(): Silence
      reads this
    {
      Silence(threshold, count, warned)
    }

    method Reset()
      modifies this
      ensures Value() == Heard(old(Value()), Output).0
    {
      count, warned := 0, false;
    }

    method Observe(given: int) returns (seen: nat, triggered: bool)
      modifies this
      ensures (Value(), triggered) == Heard(old(Value()), ToolCall(given)) && seen == count
    {
      var limit := given;
      if limit <= 0 {
        limit := threshold;
      }
      if limit <= 0 {
        limit := DEFAULT_SILENT_TOOL_CALL_THRESHOLD;
      }
      threshold := limit;
      count := count + 1;
      if warned {
        return count, false;
      }
      if count >= limit {
        warned := true;
        return count, true;
      }
      return count, false;
    }
  }

  function SilenceAfter(start: int, events: seq<Event>): Silence {
    if events == [] then Silence(start, 0, false)
    else Heard(SilenceAfter(start, events[..|events| - 1]), events[|events| - 1]).0
  }

  predicate SpeaksUpAt(start: int, events: seq<Event>, k: nat)
    requires k < |events|
  {
    Heard(SilenceAfter(start, events[..k]), events[k]).1
  }

  /** The last `r` events are tool calls, and before them there is output or nothing. */
  predicate Streak(events: seq<Event>, r: nat) {
    && r <= |events|
    && (forall k :: |events| - r <= k < |events| ==> events[k].ToolCall?)
    && (r < |events| ==> events[|events| - r - 1].Output?)
  }

  /** Some call of the streak had reached its threshold. */
  ghost predicate Reached(start: int, events: seq<Event>, r: nat) {
    exists k: nat :: |events| - r <= k < |events| && LimitMet(start, events, r, k)
  }

  /** Call `k` of the streak is as far into it as the threshold in force asks. */
  ghost predicate LimitMet(start: int, events: seq<Event>, r: nat, k: nat) {
    && k < |events| && events[k].ToolCall? && r <= |events|
    && k + 1 - (|events| - r) >= Effective(events[k].threshold, SilenceAfter(start, events[..k]).threshold,
                                           DEFAULT_SILENT_TOOL_CALL_THRESHOLD)
  }

  /** Whatever the thresholds: the count is the length of the streak, and the tracker is silenced exactly when some call
      reached its threshold. */
  lemma {:induction false} SilenceIs(start: int, events: seq<Event>)
    ensures var s := SilenceAfter(start, events);
            Streak(events, s.count) && (s.warned <==> Reached(start, events, s.count))
    decreases |events|
  {
    hide LimitMet;
    if events != [] {
      var n := |events| - 1;
      var before, s := SilenceAfter(start, events[..n]), SilenceAfter(start, events);
      SilenceIs(start, events[..n]);
      assert forall k :: 0 <= k < n ==> events[..n][k] == events[k];
      if events[n].ToolCall? {
        LimitMetNow(start, events, s.count);
        forall k: nat | k < n
          ensures LimitMet(start, events, s.count, k) <==> LimitMet(start, events[..n], before.count, k)
        {
          LimitMetBefore(start, events, before.count, k);
        }
      }
    }
  }

  lemma LimitMetBefore(start: int, events: seq<Event>, r: nat, k: nat)
    requires k < |events| - 1 && r <= |events| - 1
    ensures LimitMet(start, events, r + 1, k) <==> LimitMet(start, events[..|events| - 1], r, k)
  {
    assert events[..|events| - 1][..k] == events[..k];
  }

  lemma LimitMetNow(start: int, events: seq<Event>, r: nat)
    requires events != [] && events[|events| - 1].ToolCall? && r <= |events|
    ensures var n := |events| - 1;
            LimitMet(start, events, r, n) <==>
              r >= Effective(events[n].threshold, SilenceAfter(start, events[..n]).threshold,
                             DEFAULT_SILENT_TOOL_CALL_THRESHOLD)
  {
  }

  /** With one threshold the tracker speaks up exactly at the limit-th call of a streak: once, and never for a shorter
      one. */
  lemma SpeaksUpOnce(start: int, events: seq<Event>, limit: int, k: nat, r: nat)
    requires limit > 0 && forall i :: 0 <= i < |events| && events[i].ToolCall? ==>
               Effective(events[i].threshold, start, DEFAULT_SILENT_TOOL_CALL_THRESHOLD) == limit
    requires k < |events| && Streak(events[..k + 1], r)
    ensures SpeaksUpAt(start, events, k) <==> r == limit
  {
    SilencedFrom(start, events[..k], limit);
    SilenceIs(start, events[..k]);
    SilenceIs(start, events[..k + 1]);
    assert events[..k + 1][..k] == events[..k];
    StreaksAgree(events[..k + 1], r, SilenceAfter(start, events[..k + 1]).count);
  }

  /** The threshold is what the calls bring, else what the tracker was made with, else ten. */
  lemma SpeaksUpOf(start: int, events: seq<Event>, given: int, k: nat, r: nat)
    requires forall i :: 0 <= i < |events| && events[i].ToolCall? ==> events[i].threshold == given
    requires k < |events| && Streak(events[..k + 1], r)
    ensures SpeaksUpAt(start, events, k) <==> r == if given > 0 then given else if start > 0 then start else 10
  {
    hide SpeaksUpAt, Streak;
    SpeaksUpOnce(start, events, if given > 0 then given else if start > 0 then start else 10, k, r);
  }

  lemma StreaksAgree(events: seq<Event>, r: nat, s: nat)
    requires Streak(events, r) && Streak(events, s)
    ensures r == s
  {
  }

  lemma {:induction false} SilencedFrom(start: int, events: seq<Event>, limit: int)
    requires limit > 0 && forall i :: 0 <= i < |events| && events[i].ToolCall? ==>
               Effective(events[i].threshold, start, DEFAULT_SILENT_TOOL_CALL_THRESHOLD) == limit
    ensures var s := SilenceAfter(start, events);
            && (s.warned <==> s.count >= limit) && (s.threshold == start || s.threshold == limit)
    decreases |events|
  {
    if events != [] {
      SilencedFrom(start, events[..|events| - 1], limit);
    }
  }
}

/** agent/core_agent/runner.go: how the actions of one model round are admitted, when a round ends the run,
    and how many rounds a run makes. Handlers, hooks and the model are oracles. */
module Runner {
  import opened GoStrings

  const DEFAULT_MAX_RUN_STEPS := 1000

  datatype Error =
    | EmptyControlAction
    | EmptyToolCall
    | AfterAnswer(name: string)
    | MissingAction
    | EndOfFile               // io.EOF itself
    | UnexpectedEnd           // anything that wraps io.ErrUnexpectedEOF
    | External(text: string)

  /** What the outside does with one action: the context may be done; the handler fails or returns parts,
      whose updates may fail; recording it in memory may fail. `disallowed` says that a failure of the handler
      is the mode refusing the action, which is shown as a part of its own. */
  datatype Outcome = Outcome(
    cancelled: Option<Error>,
    handler: Option<Error>,
    disallowed: bool,
    refusalUpdate: Option<Error>,
    updates: seq<Option<Error>>,
    record: Option<Error>)

  /** An action as it reaches the runner: a control action (message, answer) or a tool call; a nil one has an empty
      name. */
  datatype Event = Event(isControl: bool, name: string, outcome: Outcome)

  // ----- The state of a round, on values -----

  /** `handled` lists the deliveries whose handler was run; `returned` is the first error a callback gave back to the
      stream. */
  datatype Flags = Flags(
    answerSeen: bool,
    actionErr: Option<Error>,
    actionCount: nat,
    sawNonAnswerAction: bool,
    handled: seq<nat>,
    returned: Option<Error>)

  const FRESH := Flags(false, None, 0, false, [], None)

  function FirstOf(a: Option<Error>, b: Option<Error>): Option<Error> {
    if a.Some? then a else b
  }

  function FirstFailure(updates: seq<Option<Error>>): Option<Error> {
    if updates == [] then None else FirstOf(updates[0], FirstFailure(updates[1..]))
  }

  /** What an action whose handler was run leaves behind. */
  datatype Effect = Fails(error: Error) | Answers | Acts | Unrecorded

  predicate IsEmpty(e: Event) {
    TrimSpace(e.name) == ""
  }

  function EffectOf(e: Event): Effect {
    var o := e.outcome;
    if o.handler.Some? then
      if !o.disallowed then Fails(o.handler.value)
      else if o.refusalUpdate.Some? then Fails(o.refusalUpdate.value)
      else if o.record.Some? then Unrecorded
      else Acts
    else if FirstFailure(o.updates).Some? then Fails(FirstFailure(o.updates).value)
    else if e.isControl && e.name == "answer" then Answers
    else Acts
  }

  /** The error with which the callback returns. */
  function ReturnedBy(e: Event): Option<Error> {
    if EffectOf(e).Fails? then None else e.outcome.record
  }

  /** One delivery; `k` is the action's place. */
  function Deliver(f: Flags, k: nat, e: Event): Flags {
    if IsEmpty(e) then
      f.(actionErr := FirstOf(f.actionErr, Some(if e.isControl then EmptyControlAction else EmptyToolCall)))
    else
      var g := f.(actionCount := f.actionCount + 1);
      if f.answerSeen then g.(actionErr := FirstOf(f.actionErr, Some(AfterAnswer(e.name))))
      else if f.actionErr.Some? then g
      else if e.outcome.cancelled.Some? then g.(returned := FirstOf(f.returned, e.outcome.cancelled))
      else
        var h := g.(handled := f.handled + [k], returned := FirstOf(f.returned, ReturnedBy(e)));
        match EffectOf(e)
        case Fails(error) => h.(actionErr := Some(error))
        case Answers => h.(answerSeen := true)
        case Acts => h.(sawNonAnswerAction := true)
        case Unrecorded => h
  }

  /** An action and its place among the actions that the model's output was parsed to. */
  datatype Delivery = Delivery(place: nat, event: Event)

  /** What a list of deliveries, made one after the other, leaves. */
  function DeliverAll(ds: seq<Delivery>): Flags {
    if ds == [] then FRESH
    else var last := ds[|ds| - 1]; Deliver(DeliverAll(ds[..|ds| - 1]), last.place, last.event)
  }

  // ----- The two callbacks -----

  class Turn {
    var answerSeen: bool
    var actionErr: Option<Error>
    var actionCount: nat
    var sawNonAnswerAction: bool
    ghost var handled: seq<nat>
    ghost var returned: Option<Error>

    constructor ()
      ensures Value() == FRESH
    {
      answerSeen, actionErr, actionCount, sawNonAnswerAction := false, None, 0, false;
      handled, returned := [], None;
    }

    ghost function Value(): Flags
      reads this
    {
      Flags(answerSeen, actionErr, actionCount, sawNonAnswerAction, handled, returned)
    }

    /** updatePart on the parts of an action, up to the first that fails. */
    method UpdateParts(updates: seq<Option<Error>>) returns (err: Option<Error>)
      ensures err == FirstFailure(updates)
    {
      err := None;
      var i := 0;
      while i < |updates|
        invariant 0 <= i <= |updates|
        invariant FirstFailure(updates) == FirstFailure(updates[i..])
      {
        assert updates[i..][1..] == updates[i + 1..];
        if updates[i].Some? {
          err := updates[i];
          return;
        }
        i := i + 1;
      }
    }

    /** What both callbacks do when the handler failed. */
    method Refused(o: Outcome) returns (err: Option<Error>)
      requires o.handler.Some? && actionErr.None?
      modifies `actionErr, `sawNonAnswerAction, `returned
      ensures actionErr == if !o.disallowed then o.handler else o.refusalUpdate
      ensures sawNonAnswerAction == (old(sawNonAnswerAction) || (actionErr.None? && o.record.None?))
      ensures err == if actionErr.Some? then None else o.record
      ensures returned == FirstOf(old(returned), err)
    {
      err := None;
      if o.disallowed {
        if o.refusalUpdate.Some? {
          actionErr := o.refusalUpdate;
          return;
        }
        if o.record.Some? {
          err, returned := o.record, FirstOf(returned, o.record);
          return;
        }
        sawNonAnswerAction := true;
        return;
      }
      actionErr := o.handler;
    }

    method ApplyControlAction(e: Event, ghost k: nat) returns (err: Option<Error>)
      requires e.isControl
      modifies this
      ensures Value() == Deliver(old(Value()), k, e) && returned == FirstOf(old(returned), err)
      ensures err == if Open(old(Value())) then Back(e) else None
    {
      hide TrimSpace, FirstFailure;
      err := None;
      if TrimSpace(e.name) == "" {
        if actionErr.None? {
          actionErr := Some(EmptyControlAction);
        }
        return;
      }
      actionCount := actionCount + 1;
      if answerSeen {
        if actionErr.None? {
          actionErr := Some(AfterAnswer(e.name));
        }
        return;
      }
      if actionErr.Some? {
        return;
      }
      if e.outcome.cancelled.Some? {
        err, returned := e.outcome.cancelled, FirstOf(returned, e.outcome.cancelled);
        return;
      }
      handled := handled + [k];
      if e.outcome.handler.Some? {
        err := Refused(e.outcome);
        return;
      }
      actionErr := UpdateParts(e.outcome.updates);
      if actionErr.Some? {
        return;
      }
      if e.name == "answer" {
        answerSeen := true;
      } else {
        sawNonAnswerAction := true;
      }
      if e.outcome.record.Some? {
        err, returned := e.outcome.record, FirstOf(returned, e.outcome.record);
      }
    }

    method ToolCallCallback(e: Event, ghost k: nat) returns (err: Option<Error>)
      requires !e.isControl
      modifies this
      ensures Value() == Deliver(old(Value()), k, e) && returned == FirstOf(old(returned), err)
      ensures err == if Open(old(Value())) then Back(e) else None
    {
      hide TrimSpace, FirstFailure;
      err := None;
      if TrimSpace(e.name) == "" {
        if actionErr.None? {
          actionErr := Some(EmptyToolCall);
        }
        return;
      }
      actionCount := actionCount + 1;
      if answerSeen {
        if actionErr.None? {
          actionErr := Some(AfterAnswer(e.name));
        }
        return;
      }
      if actionErr.Some? {
        return;
      }
      if e.outcome.cancelled.Some? {
        err, returned := e.outcome.cancelled, FirstOf(returned, e.outcome.cancelled);
        return;
      }
      handled := handled + [k];
      if e.outcome.handler.Some? {
        err := Refused(e.outcome);
        return;
      }
      var failure := UpdateParts(e.outcome.updates);
      if failure.Some? {
        actionErr := failure;
        return;
      }
      sawNonAnswerAction := true;
      if e.outcome.record.Some? {
        err, returned := e.outcome.record, FirstOf(returned, e.outcome.record);
      }
    }
  }

  // ----- What a list of deliveries comes to -----

  predicate AnswersNow(e: Event) {
    !IsEmpty(e) && e.outcome.cancelled.None? && EffectOf(e).Answers?
  }

  predicate FailsNow(e: Event) {
    IsEmpty(e) || (e.outcome.cancelled.None? && EffectOf(e).Fails?)
  }

  /** After it no handler is run any more. */
  predicate Stops(e: Event) {
    AnswersNow(e) || FailsNow(e)
  }

  /** The handler is run if the round is still open. */
  predicate Admits(e: Event) {
    !IsEmpty(e) && e.outcome.cancelled.None?
  }

  /** The error that the callback gives back if the round is still open. */
  function Back(e: Event): Option<Error> {
    if IsEmpty(e) then None else FirstOf(e.outcome.cancelled, ReturnedBy(e))
  }

  predicate GivesBack(e: Event) {
    Back(e).Some?
  }

  /** The action goes through and is no answer. */
  predicate ActsNow(e: Event) {
    Admits(e) && EffectOf(e).Acts?
  }

  // ----- The same, said in the fields of an action and its outcome -----

  predicate AllUpdated(updates: seq<Option<Error>>) {
    forall i :: 0 <= i < |updates| ==> updates[i].None?
  }

  lemma {:induction false} AllUpdatedIff(updates: seq<Option<Error>>)
    ensures FirstFailure(updates).None? <==> AllUpdated(updates)
    decreases |updates|
  {
    if updates != [] {
      AllUpdatedIff(updates[1..]);
    }
  }

  /** An answer succeeds: the control action "answer", in a live context, whose handler and updates succeed. */
  lemma AnswersIff(e: Event)
    ensures AnswersNow(e) <==>
              && e.isControl && e.name == "answer" && e.outcome.cancelled.None? && e.outcome.handler.None?
              && AllUpdated(e.outcome.updates)
  {
    hide FirstFailure;
    AllUpdatedIff(e.outcome.updates);
    assert TrimSpace("answer") != "";
  }

  /** An action fails: it has no name; or, in a live context, its handler fails and the mode does not refuse the
      action, or the refusal cannot be shown, or an update of its parts fails. */
  lemma FailsIff(e: Event)
    ensures FailsNow(e) <==>
              || TrimSpace(e.name) == ""
              || (e.outcome.cancelled.None? && e.outcome.handler.Some?
                  && (!e.outcome.disallowed || e.outcome.refusalUpdate.Some?))
              || (e.outcome.cancelled.None? && e.outcome.handler.None? && !AllUpdated(e.outcome.updates))
  {
    hide FirstFailure, TrimSpace;
    AllUpdatedIff(e.outcome.updates);
  }

  /** An action acts: it has a name and is no answer that succeeds, and, in a live context, it succeeds or its refusal
      is shown and recorded. */
  lemma ActsIff(e: Event)
    ensures ActsNow(e) <==>
              && TrimSpace(e.name) != "" && e.outcome.cancelled.None?
              && if e.outcome.handler.Some?
                 then e.outcome.disallowed && e.outcome.refusalUpdate.None? && e.outcome.record.None?
                 else AllUpdated(e.outcome.updates) && !(e.isControl && e.name == "answer")
  {
    hide FirstFailure, TrimSpace;
    AllUpdatedIff(e.outcome.updates);
  }

  /** The error given back: that of a done context, else that of the record, unless the action fails. */
  lemma BackIs(e: Event)
    ensures Back(e) ==
              if TrimSpace(e.name) == "" then None
              else if e.outcome.cancelled.Some? then e.outcome.cancelled
              else if FailsNow(e) then None
              else e.outcome.record
  {
    hide FirstFailure, TrimSpace;
  }

  /** Nothing among the first `n` deliveries stops the round. */
  predicate Clear(ds: seq<Delivery>, n: nat) {
    n <= |ds| && forall i :: 0 <= i < n ==> !Stops(ds[i].event)
  }

  predicate Open(f: Flags) {
    !f.answerSeen && f.actionErr.None?
  }

  lemma DeliverOpen(f: Flags, k: nat, e: Event)
    ensures Open(Deliver(f, k, e)) <==> Open(f) && !Stops(e)
    ensures Deliver(f, k, e).answerSeen <==> f.answerSeen || (Open(f) && AnswersNow(e))
    ensures Deliver(f, k, e).actionErr.None? <==> Open(f) && !FailsNow(e)
    ensures Deliver(f, k, e).handled == f.handled + if Open(f) && Admits(e) then [k] else []
    ensures f.actionErr.Some? ==> Deliver(f, k, e).actionErr == f.actionErr
  {
    hide IsEmpty, EffectOf;
  }

  lemma DeliverActs(f: Flags, k: nat, e: Event)
    ensures Deliver(f, k, e).sawNonAnswerAction <==> f.sawNonAnswerAction || (Open(f) && ActsNow(e))
    ensures Deliver(f, k, e).returned == FirstOf(f.returned, if Open(f) then Back(e) else None)
    ensures Deliver(f, k, e).actionErr.None? ==> Deliver(f, k, e).actionCount == f.actionCount + 1
  {
    hide EffectOf, TrimSpace;
  }

  lemma {:induction false} OpenIff(ds: seq<Delivery>)
    ensures Open(DeliverAll(ds)) <==> Clear(ds, |ds|)
    decreases |ds|
  {
    hide Stops;
    if ds != [] {
      var n := |ds| - 1;
      OpenIff(ds[..n]);
      DeliverOpen(DeliverAll(ds[..n]), ds[n].place, ds[n].event);
      assert Clear(ds, n) <==> Clear(ds[..n], n);
      assert Clear(ds, n + 1) <==> Clear(ds, n) && !Stops(ds[n].event);
    }
  }

  /** The delivery at `i` runs its handler. */
  predicate RunsAt(ds: seq<Delivery>, i: nat) {
    i < |ds| && Clear(ds, i) && Admits(ds[i].event)
  }

  lemma ClearFront(ds: seq<Delivery>, n: nat)
    requires n <= |ds|
    ensures forall i :: 0 <= i <= n ==> (Clear(ds, i) <==> Clear(ds[..n], i))
    ensures forall i :: 0 <= i < n ==> ds[..n][i] == ds[i]
  {
    hide Stops;
  }

  lemma RunsFront(ds: seq<Delivery>, n: nat)
    requires n <= |ds|
    ensures forall i: nat :: i < n ==> (RunsAt(ds, i) <==> RunsAt(ds[..n], i))
    ensures forall i: nat :: RunsAt(ds, i) ==> i < |ds|
  {
    hide Clear, Admits;
    ClearFront(ds, n);
  }

  lemma RunsLast(ds: seq<Delivery>)
    requires ds != []
    ensures var n := |ds| - 1; RunsAt(ds, n) <==> Open(DeliverAll(ds[..n])) && Admits(ds[n].event)
  {
    hide Clear, Admits, Open, DeliverAll;
    var n := |ds| - 1;
    OpenIff(ds[..n]);
    ClearFront(ds, n);
  }

  lemma {:induction false} HandledIff(ds: seq<Delivery>, place: nat)
    ensures place in DeliverAll(ds).handled <==> exists i: nat :: RunsAt(ds, i) && ds[i].place == place
    decreases |ds|
  {
    hide Deliver, Clear, RunsAt, Open, Admits;
    if ds == [] {
      RunsFront(ds, 0);
    } else {
      var n := |ds| - 1;
      var f, last := DeliverAll(ds[..n]), ds[n];
      HandledIff(ds[..n], place);
      RunsFront(ds, n);
      RunsFront(ds[..n], n);
      RunsLast(ds);
      DeliverOpen(f, last.place, last.event);
      if i: nat :| RunsAt(ds[..n], i) && ds[..n][i].place == place {
        assert RunsAt(ds, i) && ds[i].place == place;
      }
    }
  }

  /** There is an answer exactly when one is given before anything stops the round; there is no error exactly
      when nothing fails and an answer, if any, is the last that is delivered. */
  lemma {:induction false} FlagsIff(ds: seq<Delivery>)
    ensures var f, n := DeliverAll(ds), |ds|;
            && (f.actionErr.None? <==> n == 0 || (Clear(ds, n - 1) && !FailsNow(ds[n - 1].event)))
            && (f.actionErr.None? ==> (f.answerSeen <==> n > 0 && AnswersNow(ds[n - 1].event)))
            && (f.actionErr.None? ==> (f.actionCount == 0 <==> n == 0))
    decreases |ds|
  {
    hide AnswersNow, FailsNow, Deliver;
    if ds != [] {
      var n := |ds| - 1;
      var f := DeliverAll(ds[..n]);
      OpenIff(ds[..n]);
      DeliverOpen(f, ds[n].place, ds[n].event);
      DeliverActs(f, ds[n].place, ds[n].event);
      assert Clear(ds, n) <==> Clear(ds[..n], n);
      assert n > 0 ==> (Clear(ds, n) ==> Clear(ds, n - 1) && !Stops(ds[n - 1].event));
    }
  }

  /** The error of a failing action: it has no name, its handler failed, its refusal could not be shown, or the first
      of its updates that failed. */
  function ErrorOf(e: Event): Option<Error> {
    if TrimSpace(e.name) == "" then Some(if e.isControl then EmptyControlAction else EmptyToolCall)
    else if e.outcome.handler.Some? then if e.outcome.disallowed then e.outcome.refusalUpdate else e.outcome.handler
    else FirstFailure(e.outcome.updates)
  }

  lemma {:induction false} ErrorStays(ds: seq<Delivery>, n: nat)
    requires n <= |ds| && DeliverAll(ds[..n]).actionErr.Some?
    ensures DeliverAll(ds).actionErr == DeliverAll(ds[..n]).actionErr
    decreases |ds|
  {
    hide Deliver;
    if n == |ds| {
      assert ds[..n] == ds;
    } else {
      var k := |ds| - 1;
      assert ds[..k][..n] == ds[..n];
      ErrorStays(ds[..k], n);
      DeliverOpen(DeliverAll(ds[..k]), ds[k].place, ds[k].event);
    }
  }

  lemma DeliverAt(ds: seq<Delivery>, i: nat)
    requires i < |ds|
    ensures DeliverAll(ds[..i + 1]) == Deliver(DeliverAll(ds[..i]), ds[i].place, ds[i].event)
  {
    hide Deliver;
    assert ds[..i + 1][..i] == ds[..i];
  }

  /** The error of the round is that of the first action that fails; once an answer was given, that of the next action:
      it has no name, or comes after the answer. Nothing later replaces it. */
  lemma FirstErrorStays(ds: seq<Delivery>, i: nat)
    requires i < |ds| && Clear(ds, i)
    ensures FailsNow(ds[i].event) ==> DeliverAll(ds).actionErr == ErrorOf(ds[i].event)
    ensures AnswersNow(ds[i].event) && i + 1 < |ds| ==>
              var e := ds[i + 1].event;
              DeliverAll(ds).actionErr == if TrimSpace(e.name) == "" then ErrorOf(e) else Some(AfterAnswer(e.name))
  {
    hide Clear, FailsNow, AnswersNow, ErrorOf, Deliver, DeliverAll, TrimSpace;
    var f := DeliverAll(ds[..i]);
    OpenIff(ds[..i]);
    ClearFront(ds, i);
    DeliverAt(ds, i);
    ErrorNow(f, ds[i].place, ds[i].event);
    if FailsNow(ds[i].event) {
      ErrorStays(ds, i + 1);
    }
    if AnswersNow(ds[i].event) && i + 1 < |ds| {
      DeliverAt(ds, i + 1);
      ErrorLate(DeliverAll(ds[..i + 1]), ds[i + 1].place, ds[i + 1].event);
      if TrimSpace(ds[i + 1].event.name) == "" {
        BlankHasError(ds[i + 1].event);
      }
      ErrorStays(ds, i + 2);
    }
  }

  lemma BlankHasError(e: Event)
    requires TrimSpace(e.name) == ""
    ensures ErrorOf(e).Some?
  {
    hide TrimSpace;
  }

  lemma ErrorNow(f: Flags, k: nat, e: Event)
    requires Open(f)
    ensures FailsNow(e) ==> Deliver(f, k, e).actionErr == ErrorOf(e) && ErrorOf(e).Some?
    ensures AnswersNow(e) ==> Deliver(f, k, e).answerSeen && Deliver(f, k, e).actionErr.None?
  {
    hide TrimSpace, FirstFailure;
  }

  lemma ErrorLate(f: Flags, k: nat, e: Event)
    requires f.answerSeen && f.actionErr.None?
    ensures Deliver(f, k, e).actionErr == if TrimSpace(e.name) == "" then ErrorOf(e) else Some(AfterAnswer(e.name))
  {
    hide TrimSpace, FirstFailure, EffectOf;
  }

  /** The flag for other actions is set exactly when one of them went through while the round was open. */
  lemma {:induction false} ActedIff(ds: seq<Delivery>)
    ensures DeliverAll(ds).sawNonAnswerAction <==> exists i :: 0 <= i < |ds| && Clear(ds, i) && ActsNow(ds[i].event)
    decreases |ds|
  {
    hide Clear, Stops, Deliver, ActsNow;
    if ds != [] {
      var n := |ds| - 1;
      ActedIff(ds[..n]);
      OpenIff(ds[..n]);
      DeliverActs(DeliverAll(ds[..n]), ds[n].place, ds[n].event);
      ClearFront(ds, n);
    }
  }

  /** A callback gave an error back exactly when one met a done context, or was not recorded, while the round was
      open. */
  lemma {:induction false} ReturnedIff(ds: seq<Delivery>)
    ensures DeliverAll(ds).returned.Some? <==> exists i :: 0 <= i < |ds| && Clear(ds, i) && GivesBack(ds[i].event)
    decreases |ds|
  {
    hide Clear, Stops, Deliver, Back;
    if ds != [] {
      var n := |ds| - 1;
      ReturnedIff(ds[..n]);
      OpenIff(ds[..n]);
      DeliverActs(DeliverAll(ds[..n]), ds[n].place, ds[n].event);
      ClearFront(ds, n);
    }
  }

  /** Answer seen, no error, nothing else acted: exactly for a list of one answer that succeeds. */
  lemma AnswerAloneIff(ds: seq<Delivery>)
    ensures var f := DeliverAll(ds);
            f.returned.None? && f.actionErr.None? && f.answerSeen && !f.sawNonAnswerAction <==>
            |ds| == 1 && AnswersNow(ds[0].event) && ds[0].event.outcome.record.None?
  {
    hide DeliverAll, AnswersNow, Clear, ActsNow, Back;
    FlagsIff(ds);
    ActedIff(ds);
    ReturnedIff(ds);
    if ds != [] {
      assert Clear(ds, 0) by { NothingBefore(ds); }
      LastOfMany(ds);
      OneEvent(ds[0].event);
    }
  }

  lemma NothingBefore(ds: seq<Delivery>)
    ensures Clear(ds, 0)
  {
  }

  /** An answer at the end of a longer list has something before it that acted or gave an error back. */
  lemma LastOfMany(ds: seq<Delivery>)
    requires ds != []
    ensures |ds| > 1 && Clear(ds, |ds| - 1) ==> ActsNow(ds[0].event) || GivesBack(ds[0].event)
  {
    if |ds| > 1 && Clear(ds, |ds| - 1) {
      NothingStops(ds[0].event);
    }
  }

  lemma NothingStops(e: Event)
    requires !Stops(e)
    ensures ActsNow(e) || GivesBack(e)
  {
    hide TrimSpace, FirstFailure;
  }

  lemma OneEvent(e: Event)
    ensures AnswersNow(e) ==> e.isControl && !FailsNow(e) && !ActsNow(e) && Back(e) == e.outcome.record
  {
    hide TrimSpace, FirstFailure;
  }

  // ----- From parsed actions to deliveries -----

  /** The control action at `h` gives an error back, which ends the dispatch: nothing parsed behind it is looked at. */
  predicate HaltsAt(parsed: seq<Event>, h: nat) {
    && h < |parsed| && parsed[h].isControl && GivesBack(parsed[h])
    && forall g :: 0 <= g < h && parsed[g].isControl ==> !Stops(parsed[g])
  }

  /** The action is dispatched: no control action in front of it ended the dispatch. */
  predicate IsDispatched(parsed: seq<Event>, j: nat) {
    j < |parsed| && forall h :: 0 <= h < j ==> !HaltsAt(parsed, h)
  }

  /** How many of the parsed actions are dispatched, looking from `i` on. */
  function DispatchEnd(parsed: seq<Event>, i: nat): (n: nat)
    requires i <= |parsed|
    ensures i <= n <= |parsed|
    ensures forall h :: i <= h < n - 1 ==> !HaltsAt(parsed, h)
    ensures n == |parsed| || (n > i && HaltsAt(parsed, n - 1))
    decreases |parsed| - i
  {
    if i == |parsed| then i else if HaltsAt(parsed, i) then i + 1 else DispatchEnd(parsed, i + 1)
  }

  function Dispatched(parsed: seq<Event>): seq<Event> {
    parsed[..DispatchEnd(parsed, 0)]
  }

  /** The control actions, or the tool calls, of a list. */
  function Pick(events: seq<Event>, control: bool): seq<Delivery> {
    if events == [] then []
    else
      var n := |events| - 1;
      Pick(events[..n], control) + if events[n].isControl == control then [Delivery(n, events[n])] else []
  }

  /** What is delivered, in order: control actions while the output is parsed; tool calls, which are queued, once all
      of it is dispatched. */
  function Plan(parsed: seq<Event>): seq<Delivery> {
    InOrder(Dispatched(parsed))
  }

  function InOrder(dispatched: seq<Event>): seq<Delivery> {
    Pick(dispatched, true) + Pick(dispatched, false)
  }

  lemma {:induction false} InPick(events: seq<Event>, control: bool, i: nat)
    requires i < |Pick(events, control)|
    ensures var d := Pick(events, control)[i];
            && d.place < |events| && events[d.place].isControl == control && d.event == events[d.place]
            && Pick(events, control)[..i] == Pick(events[..d.place], control)
    decreases |events|
  {
    var n := |events| - 1;
    var front := Pick(events[..n], control);
    if i < |front| {
      InPick(events[..n], control, i);
      var place := front[i].place;
      assert events[..n][..place] == events[..place];
      assert Pick(events, control)[..i] == front[..i];
    } else {
      assert Pick(events, control)[..i] == front;
    }
  }

  lemma {:induction false} IsPicked(events: seq<Event>, control: bool, j: nat)
    requires j < |events| && events[j].isControl == control
    ensures var i := |Pick(events[..j], control)|;
            i < |Pick(events, control)| && Pick(events, control)[i] == Delivery(j, events[j])
    decreases |events|
  {
    var n := |events| - 1;
    if j < n {
      IsPicked(events[..n], control, j);
      assert events[..n][..j] == events[..j];
    }
  }

  lemma {:induction false} PickSizes(events: seq<Event>)
    ensures |Pick(events, true)| + |Pick(events, false)| == |events|
    decreases |events|
  {
    if events != [] {
      PickSizes(events[..|events| - 1]);
    }
  }

  /** None of the control actions, or tool calls, stops the round. */
  predicate NoneStops(events: seq<Event>, control: bool) {
    forall g :: 0 <= g < |events| && events[g].isControl == control ==> !Stops(events[g])
  }

  lemma {:induction false} PickClear(events: seq<Event>, control: bool)
    ensures var ds := Pick(events, control); Clear(ds, |ds|) <==> NoneStops(events, control)
    decreases |events|
  {
    hide Stops;
    if events != [] {
      var n := |events| - 1;
      PickClear(events[..n], control);
      var more := if events[n].isControl == control then [Delivery(n, events[n])] else [];
      ClearMore(Pick(events[..n], control), more);
      assert Clear(more, |more|) <==> (events[n].isControl == control ==> !Stops(events[n])) by {
        assert more != [] ==> more[0].event == events[n];
      }
      assert NoneStops(events, control) <==>
               NoneStops(events[..n], control) && (events[n].isControl == control ==> !Stops(events[n]));
    }
  }

  lemma ClearMore(a: seq<Delivery>, b: seq<Delivery>)
    ensures forall i: nat :: i <= |a| ==> (Clear(a + b, i) <==> Clear(a, i))
    ensures forall i: nat :: i <= |b| ==> (Clear(a + b, |a| + i) <==> Clear(a, |a|) && Clear(b, i))
  {
    forall i: nat | i <= |a|
      ensures Clear(a + b, i) <==> Clear(a, i)
    {
      ClearSame(a + b, a, i);
    }
    forall i: nat | i <= |b|
      ensures Clear(a + b, |a| + i) <==> Clear(a, |a|) && Clear(b, i)
    {
      ClearSame(a + b, a, |a|);
      ClearBehind(a, b, i);
    }
  }

  lemma ClearSame(x: seq<Delivery>, y: seq<Delivery>, i: nat)
    requires i <= |x| && i <= |y| && x[..i] == y[..i]
    ensures Clear(x, i) <==> Clear(y, i)
  {
    hide Stops;
    assert forall k :: 0 <= k < i ==> x[k] == x[..i][k] && y[k] == y[..i][k];
  }

  lemma ClearBehind(a: seq<Delivery>, b: seq<Delivery>, i: nat)
    requires i <= |b|
    ensures Clear(a + b, |a| + i) <==> Clear(a + b, |a|) && Clear(b, i)
  {
    hide Stops;
    var all := a + b;
    if Clear(all, |a| + i) {
      forall k | 0 <= k < i
        ensures !Stops(b[k].event)
      {
        assert !Stops(all[|a| + k].event);
      }
    }
    if Clear(all, |a|) && Clear(b, i) {
      forall k | 0 <= k < |a| + i
        ensures !Stops(all[k].event)
      {
        if k >= |a| {
          assert !Stops(b[k - |a|].event);
        }
      }
    }
  }

  lemma ClearPrefix(ds: seq<Delivery>, i: nat)
    requires i <= |ds|
    ensures Clear(ds, i) <==> Clear(ds[..i], i)
  {
    ClearSame(ds, ds[..i], i);
  }

  /** The place of an action in the plan of what is dispatched. */
  lemma PlanAt(d: seq<Event>, i: nat)
    requires i < |InOrder(d)|
    ensures var plan := InOrder(d);
            var j := plan[i].place;
            && j < |d| && plan[i].event == d[j]
            && (d[j].isControl ==> (Clear(plan, i) <==> NoneStops(d[..j], true)))
            && (!d[j].isControl ==> (Clear(plan, i) <==> NoneStops(d, true) && NoneStops(d[..j], false)))
  {
    hide Stops, NoneStops, Clear;
    var a, b := Pick(d, true), Pick(d, false);
    ClearMore(a, b);
    var j := InOrder(d)[i].place;
    if i < |a| {
      InPick(d, true, i);
      ClearPrefix(a, i);
      PickClear(d[..j], true);
    } else {
      InPick(d, false, i - |a|);
      ClearPrefix(b, i - |a|);
      PickClear(d, true);
      PickClear(d[..j], false);
    }
  }

  lemma PlanHas(d: seq<Event>, j: nat) returns (i: nat)
    requires j < |d|
    ensures i < |InOrder(d)| && InOrder(d)[i].place == j
  {
    IsPicked(d, d[j].isControl, j);
    i := |Pick(d[..j], d[j].isControl)| + if d[j].isControl then 0 else |Pick(d, true)|;
  }

  /** A parsed action is delivered to an open round: it is dispatched, no control action parsed before it stopped the
      round, and, for a tool call, no dispatched control action at all did, nor a tool call parsed before it. */
  predicate Reached(parsed: seq<Event>, j: nat) {
    && IsDispatched(parsed, j)
    && (forall g: nat ::
          g < |parsed| && parsed[g].isControl && (g < j || (!parsed[j].isControl && IsDispatched(parsed, g))) ==>
            !Stops(parsed[g]))
    && (!parsed[j].isControl ==> forall g :: 0 <= g < j && !parsed[g].isControl ==> !Stops(parsed[g]))
  }

  /** When the handler of a parsed action may run. */
  predicate MayRun(parsed: seq<Event>, j: nat) {
    Reached(parsed, j) && Admits(parsed[j])
  }

  lemma DispatchedIff(parsed: seq<Event>, j: nat)
    ensures j < |Dispatched(parsed)| <==> IsDispatched(parsed, j)
  {
    hide HaltsAt;
  }

  /** The handlers that are run in a round. */
  lemma HandlerRunsIff(parsed: seq<Event>, j: nat)
    ensures j in DeliverAll(Plan(parsed)).handled <==> MayRun(parsed, j)
  {
    hide DeliverAll, Admits, Reached, Clear, Plan;
    var plan := Plan(parsed);
    HandledIff(plan, j);
    if i: nat :| RunsAt(plan, i) && plan[i].place == j {
      ReachedAt(parsed, i);
    }
    if MayRun(parsed, j) {
      var i := ReachedHas(parsed, j);
      assert RunsAt(plan, i);
    }
  }

  /** The deliveries that find the round open are those of the actions that are reached. */
  lemma ReachedAt(parsed: seq<Event>, i: nat)
    requires i < |Plan(parsed)|
    ensures var d := Plan(parsed)[i];
            && d.place < |parsed| && d.event == parsed[d.place]
            && (Clear(Plan(parsed), i) <==> Reached(parsed, d.place))
  {
    hide Stops, HaltsAt, IsDispatched, Clear, Pick, DispatchEnd;
    var d := Dispatched(parsed);
    forall g: nat
      ensures g < |d| <==> IsDispatched(parsed, g)
    {
      DispatchedIff(parsed, g);
    }
    PlanAt(d, i);
    DispatchedIsParsed(parsed, Plan(parsed)[i].place);
  }

  lemma ReachedIsDispatched(parsed: seq<Event>, j: nat)
    requires Reached(parsed, j)
    ensures j < |parsed| && IsDispatched(parsed, j) && j < |Dispatched(parsed)|
  {
    DispatchedIff(parsed, j);
  }

  lemma ReachedHas(parsed: seq<Event>, j: nat) returns (i: nat)
    requires Reached(parsed, j)
    ensures i < |Plan(parsed)| && Plan(parsed)[i] == Delivery(j, parsed[j]) && Clear(Plan(parsed), i)
  {
    hide Stops, HaltsAt, IsDispatched, Clear, Pick, DispatchEnd;
    DispatchedIff(parsed, j);
    i := PlanHas(Dispatched(parsed), j);
    ReachedAt(parsed, i);
  }

  lemma DispatchedIsParsed(parsed: seq<Event>, j: nat)
    ensures IsDispatched(parsed, j) ==> j < |parsed|
  {
  }

  /** Control actions come in front of tool calls, and among their like in the order in which they were parsed. */
  predicate Follows(parsed: seq<Event>, x: nat, y: nat) {
    && x < |parsed| && y < |parsed|
    && ((parsed[x].isControl && !parsed[y].isControl) || (parsed[x].isControl == parsed[y].isControl && x < y))
  }

  predicate InTurn(parsed: seq<Event>, places: seq<nat>) {
    forall a, b :: 0 <= a < b < |places| ==> Follows(parsed, places[a], places[b])
  }

  function Places(ds: seq<Delivery>): (ps: seq<nat>)
    ensures |ps| == |ds| && forall i :: 0 <= i < |ps| ==> ps[i] == ds[i].place
  {
    seq(|ds|, i requires 0 <= i < |ds| => ds[i].place)
  }

  lemma {:induction false} HandledInTurn(parsed: seq<Event>, ds: seq<Delivery>)
    requires InTurn(parsed, Places(ds))
    ensures InTurn(parsed, DeliverAll(ds).handled)
    ensures forall x :: x in DeliverAll(ds).handled ==> x in Places(ds)
    decreases |ds|
  {
    hide Deliver, Follows, Admits;
    if ds == [] {
      NothingDelivered();
    } else {
      var n := |ds| - 1;
      var f, place := DeliverAll(ds[..n]), ds[n].place;
      assert Places(ds) == Places(ds[..n]) + [place];
      assert forall a, b ::
          0 <= a < b < n ==> Places(ds[..n])[a] == Places(ds)[a] && Places(ds[..n])[b] == Places(ds)[b];
      HandledInTurn(parsed, ds[..n]);
      DeliverOpen(f, place, ds[n].event);
      TurnMore(parsed, f.handled, Places(ds[..n]), place);
    }
  }

  lemma TurnMore(parsed: seq<Event>, h: seq<nat>, ps: seq<nat>, place: nat)
    requires InTurn(parsed, h) && InTurn(parsed, ps + [place]) && forall x :: x in h ==> x in ps
    ensures InTurn(parsed, h + [place])
  {
    hide Follows;
    forall a | 0 <= a < |h|
      ensures Follows(parsed, h[a], place)
    {
      assert h[a] in h && h[a] in ps;
      var i :| 0 <= i < |ps| && ps[i] == h[a];
      assert (ps + [place])[i] == h[a] && (ps + [place])[|ps|] == place;
    }
  }

  lemma PickInTurn(parsed: seq<Event>, n: nat, control: bool, a: nat, b: nat)
    requires n <= |parsed| && a < b < |Pick(parsed[..n], control)|
    ensures var ds := Pick(parsed[..n], control); Follows(parsed, ds[a].place, ds[b].place)
  {
    var d := parsed[..n];
    var ds := Pick(d, control);
    InPick(d, control, a);
    InPick(d, control, b);
    var front := Pick(d[..ds[b].place], control);
    assert front[a] == ds[a];
    InPick(d[..ds[b].place], control, a);
  }

  /** The handlers that run, run once each: control actions first, then tool calls, each in the order of parsing. */
  lemma HandledInOrder(parsed: seq<Event>)
    ensures InTurn(parsed, DeliverAll(Plan(parsed)).handled)
  {
    hide DeliverAll, Pick, DispatchEnd;
    var n := DispatchEnd(parsed, 0);
    var a, b := Pick(parsed[..n], true), Pick(parsed[..n], false);
    var ps := Places(Plan(parsed));
    forall x, y | 0 <= x < y < |ps|
      ensures Follows(parsed, ps[x], ps[y])
    {
      if y < |a| {
        PickInTurn(parsed, n, true, x, y);
      } else if x >= |a| {
        PickInTurn(parsed, n, false, x - |a|, y - |a|);
      } else {
        InPick(parsed[..n], true, x);
        InPick(parsed[..n], false, y - |a|);
      }
    }
    HandledInTurn(parsed, Plan(parsed));
  }

  lemma PlanSize(parsed: seq<Event>)
    ensures |Plan(parsed)| == |Dispatched(parsed)| <= |parsed|
    ensures parsed != [] ==> Dispatched(parsed) != []
  {
    hide HaltsAt;
    PickSizes(Dispatched(parsed));
  }

  // ----- Which of the errors given back the round gets to see -----

  /** The reading of the output makes nothing of an io.EOF that ended the dispatch, nor of an unexpected end once an
      action was dispatched; `h` is the place of the control action that gave the error back. */
  predicate Silent(h: nat, e: Error) {
    e == EndOfFile || (e == UnexpectedEnd && h > 0)
  }

  /** The error with which a control action ended the dispatch. */
  function DispatchErr(parsed: seq<Event>): Option<Error> {
    DeliverAll(Pick(Dispatched(parsed), true)).returned
  }

  /** The first error that the queued tool calls give back, once `before` was delivered. */
  function QueueErr(before: seq<Delivery>, queue: seq<Delivery>): Option<Error> {
    if queue == [] then None
    else
      var n := |queue| - 1;
      FirstOf(QueueErr(before, queue[..n]),
              if Open(DeliverAll(before + queue[..n])) then Back(queue[n].event) else None)
  }

  /** What the reading of the output returns, as far as the actions go. */
  function ReadErr(parsed: seq<Event>): Option<Error> {
    var d, e := Dispatched(parsed), DispatchErr(parsed);
    FirstOf(QueueErr(Pick(d, true), Pick(d, false)), if e.Some? && d != [] && Silent(|d| - 1, e.value) then None else e)
  }

  lemma {:induction false} QueueErrIff(before: seq<Delivery>, queue: seq<Delivery>)
    ensures QueueErr(before, queue).Some? <==>
              exists i: nat :: i < |queue| && Clear(before + queue, |before| + i) && GivesBack(queue[i].event)
    decreases |queue|
  {
    hide Clear, Back, DeliverAll, Open;
    if queue != [] {
      var n := |queue| - 1;
      var front := before + queue[..n];
      QueueErrIff(before, queue[..n]);
      OpenIff(front);
      assert front == (before + queue)[..|before| + n];
      ClearFront(before + queue, |before| + n);
      assert forall i: nat :: i < n ==> queue[..n][i] == queue[i];
    }
  }

  /** A dispatch that no control action ends so far has given no error back. */
  lemma {:induction false} NoneBack(parsed: seq<Event>, k: nat)
    requires k <= |parsed| && forall h :: 0 <= h < k ==> !HaltsAt(parsed, h)
    ensures DeliverAll(Pick(parsed[..k], true)).returned.None?
    decreases k
  {
    hide HaltsAt, Deliver, Open, Pick;
    if k == 0 {
      NothingPicked();
    } else {
      NoneBack(parsed, k - 1);
      OneMore(parsed, k - 1);
    }
  }

  lemma NothingPicked()
    ensures DeliverAll(Pick([], true)) == FRESH && Pick([], false) == []
  {
  }

  /** The error given back so far, after one more dispatched action. */
  lemma OneMore(parsed: seq<Event>, k: nat)
    requires k < |parsed|
    ensures var f, g := DeliverAll(Pick(parsed[..k], true)), DeliverAll(Pick(parsed[..k + 1], true));
            g.returned == FirstOf(f.returned, if HaltsAt(parsed, k) then Back(parsed[k]) else None)
  {
    hide Deliver, DeliverAll, Pick, Open, Stops, Back;
    var e := parsed[k];
    assert parsed[..k + 1] == parsed[..k] + [e];
    PickMore(parsed[..k], e);
    if e.isControl {
      HaltsIff(parsed, k);
      DeliverActs(DeliverAll(Pick(parsed[..k], true)), k, e);
    }
  }

  lemma DispatchErrIs(parsed: seq<Event>)
    ensures var d, e := Dispatched(parsed), DispatchErr(parsed);
            if e.Some? then d != [] && HaltsAt(parsed, |d| - 1) && e == Back(parsed[|d| - 1])
            else d == parsed && forall h :: 0 <= h < |parsed| ==> !HaltsAt(parsed, h)
  {
    hide HaltsAt, DeliverAll, Pick, Back;
    var n := DispatchEnd(parsed, 0);
    if n > 0 && HaltsAt(parsed, n - 1) {
      NoneBack(parsed, n - 1);
      OneMore(parsed, n - 1);
      assert GivesBack(parsed[n - 1]) by { HaltGivesBack(parsed, n - 1); }
    } else {
      assert parsed[..n] == parsed;
      NoneBack(parsed, n);
    }
  }

  lemma ToolsGoOn(parsed: seq<Event>, k: nat)
    requires k < |parsed| && !parsed[k].isControl
    ensures !HaltsAt(parsed, k)
  {
  }

  lemma HaltGivesBack(parsed: seq<Event>, h: nat)
    requires HaltsAt(parsed, h)
    ensures h < |parsed| && parsed[h].isControl && GivesBack(parsed[h])
  {
  }

  /** The control action that ends the dispatch is the one that is reached and gives an error back. */
  lemma HaltIsReached(parsed: seq<Event>, j: nat)
    requires j < |parsed| && parsed[j].isControl
    ensures Reached(parsed, j) && GivesBack(parsed[j]) <==> IsDispatched(parsed, j) && HaltsAt(parsed, j)
    ensures IsDispatched(parsed, j) && HaltsAt(parsed, j) ==> j == |Dispatched(parsed)| - 1
  {
    hide Stops, GivesBack;
    DispatchedIff(parsed, j);
  }

  /** An error of the actions that is heard: one that an action gives back to the open round, unless it is a control
      action's and silent. */
  predicate Heard(parsed: seq<Event>, j: nat) {
    Reached(parsed, j) && GivesBack(parsed[j]) && !(parsed[j].isControl && Silent(j, Back(parsed[j]).value))
  }

  /** The reading of the output fails over an action exactly when an error is heard. */
  lemma ReadErrIff(parsed: seq<Event>)
    ensures ReadErr(parsed).Some? <==> exists j: nat :: Heard(parsed, j)
  {
    hide Reached, HaltsAt, Back, DeliverAll, Pick, Silent, DispatchEnd, QueueErr, Clear;
    var d := Dispatched(parsed);
    var a, b := Pick(d, true), Pick(d, false);
    QueueErrIff(a, b);
    DispatchErrIs(parsed);
    if i: nat :| i < |b| && Clear(a + b, |a| + i) && GivesBack(b[i].event) {
      ReachedAt(parsed, |a| + i);
      InPick(d, false, i);
      assert Heard(parsed, b[i].place);
    } else if DispatchErr(parsed).Some? {
      var h := |d| - 1;
      HaltGivesBack(parsed, h);
      DispatchedIff(parsed, h);
      HaltIsReached(parsed, h);
      assert Heard(parsed, h) <==> !Silent(h, Back(parsed[h]).value);
    }
    if j: nat :| Heard(parsed, j) {
      ReachedIsDispatched(parsed, j);
      var i := ReachedHas(parsed, j);
      if parsed[j].isControl {
        HaltIsReached(parsed, j);
      } else {
        ToolsBehind(d, i);
        assert Plan(parsed)[i] == b[i - |a|];
      }
    }
  }

  lemma ToolsBehind(d: seq<Event>, i: nat)
    requires i < |InOrder(d)|
    ensures InOrder(d)[i].event.isControl <==> i < |Pick(d, true)|
  {
    if i < |Pick(d, true)| {
      InPick(d, true, i);
    } else {
      InPick(d, false, i - |Pick(d, true)|);
    }
  }

  /** The round's only action is an answer that succeeds. Should recording it fail with io.EOF, the dispatch ends
      there, and nothing is made of that nor of what is parsed behind it. */
  predicate OneAnswer(parsed: seq<Event>) {
    && parsed != [] && AnswersNow(parsed[0])
    && (parsed[0].outcome.record == Some(EndOfFile) || (parsed[0].outcome.record.None? && |parsed| == 1))
  }

  lemma OneAnswerIs(parsed: seq<Event>)
    ensures OneAnswer(parsed) <==>
              && parsed != [] && parsed[0].isControl && parsed[0].name == "answer"
              && parsed[0].outcome.cancelled.None? && parsed[0].outcome.handler.None?
              && (forall i :: 0 <= i < |parsed[0].outcome.updates| ==> parsed[0].outcome.updates[i].None?)
              && (parsed[0].outcome.record == Some(EndOfFile)
                  || (parsed[0].outcome.record.None? && |parsed| == 1))
  {
    hide AnswersNow;
    if parsed != [] {
      AnswersIff(parsed[0]);
    }
  }

  /** Answer seen, no error and nothing else acted: exactly when the model gave one answer and nothing else, and it
      succeeds. */
  lemma OneAnswerIff(parsed: seq<Event>)
    ensures var f := DeliverAll(Plan(parsed));
            ReadErr(parsed).None? && f.actionErr.None? && f.answerSeen && !f.sawNonAnswerAction <==> OneAnswer(parsed)
  {
    hide DeliverAll, AnswersNow, Back, Pick, FailsNow, ActsNow, Reached, HaltsAt, ReadErr, DispatchEnd, Clear;
    var d, plan, f := Dispatched(parsed), Plan(parsed), DeliverAll(Plan(parsed));
    FlagsIff(plan);
    ActedIff(plan);
    PlanSize(parsed);
    if ReadErr(parsed).None? && f.actionErr.None? && f.answerSeen && !f.sawNonAnswerAction {
      AnswerComesFirst(parsed);
      OnlyAnswer(parsed);
    }
    if OneAnswer(parsed) {
      AnswerAlone(parsed);
    }
  }

  /** An answer that is delivered behind something else has something before it that acted or ended the dispatch. */
  lemma AnswerComesFirst(parsed: seq<Event>)
    requires var plan := Plan(parsed);
             var n := |plan|;
             && n > 0 && Clear(plan, n - 1) && AnswersNow(plan[n - 1].event)
             && !DeliverAll(plan).sawNonAnswerAction
    ensures |Plan(parsed)| == 1
  {
    hide DeliverAll, AnswersNow, GivesBack, Pick, ActsNow, Reached, HaltsAt, DispatchEnd;
    var d, plan := Dispatched(parsed), Plan(parsed);
    var n := |plan|;
    ActedIff(plan);
    if n > 1 {
      assert Clear(plan, 0) && !Stops(plan[0].event);
      NothingStops(plan[0].event);
      ReachedAt(parsed, 0);
      ReachedAt(parsed, n - 1);
      OneEvent(plan[n - 1].event);
      ToolsBehind(d, n - 1);
      ToolsBehind(d, 0);
      PickInTurn(parsed, DispatchEnd(parsed, 0), true, 0, n - 1);
      HaltIsReached(parsed, plan[0].place);
      assert IsDispatched(parsed, plan[n - 1].place) by { ReachedIsDispatched(parsed, plan[n - 1].place); }
    }
  }

  lemma OnlyAnswer(parsed: seq<Event>)
    requires |Plan(parsed)| == 1 && AnswersNow(Plan(parsed)[0].event) && ReadErr(parsed).None?
    ensures OneAnswer(parsed)
  {
    hide DeliverAll, AnswersNow, Pick, Reached, HaltsAt, DispatchEnd, ReadErr;
    var plan := Plan(parsed);
    PlanSize(parsed);
    NothingBefore(plan);
    ReachedAt(parsed, 0);
    ReachedIsDispatched(parsed, plan[0].place);
    OneEvent(parsed[0]);
    ReadErrIff(parsed);
    DispatchErrIs(parsed);
    HaltIsReached(parsed, 0);
    assert !Heard(parsed, 0);
  }

  lemma AnswerAlone(parsed: seq<Event>)
    requires OneAnswer(parsed)
    ensures var f := DeliverAll(Plan(parsed));
            ReadErr(parsed).None? && f.actionErr.None? && f.answerSeen && !f.sawNonAnswerAction
  {
    hide DeliverAll, AnswersNow, FailsNow, ActsNow, Pick, Reached, HaltsAt, DispatchEnd, ReadErr;
    var d, plan := Dispatched(parsed), Plan(parsed);
    PlanSize(parsed);
    OneEvent(parsed[0]);
    assert |d| == 1 by { AnswerHalts(parsed); }
    ReachedAt(parsed, 0);
    NothingBefore(plan);
    ReachedIsDispatched(parsed, plan[0].place);
    FlagsIff(plan);
    ActedIff(plan);
    ReadErrIff(parsed);
    forall j: nat
      ensures !Heard(parsed, j)
    {
      if Reached(parsed, j) {
        ReachedIsDispatched(parsed, j);
      }
    }
  }

  lemma AnswerHalts(parsed: seq<Event>)
    requires OneAnswer(parsed)
    ensures |Dispatched(parsed)| == 1
  {
    hide Back, AnswersNow;
    OneEvent(parsed[0]);
    assert HaltsAt(parsed, 0) <==> parsed[0].outcome.record.Some?;
  }

  // ----- What an error given back does -----

  /** A tool call whose result is not recorded gives its error back, and the next tool call still runs. */
  lemma ToolsRunOn(a: Event, b: Event)
    requires !a.isControl && !b.isControl && Admits(a) && Admits(b) && !Stops(a) && GivesBack(a)
    ensures 1 in DeliverAll(Plan([a, b])).handled
  {
    hide DeliverAll, Plan, Stops, Admits, GivesBack;
    HandlerRunsIff([a, b], 1);
  }

  /** A control action whose result is not recorded ends the dispatch: nothing parsed behind it runs. */
  lemma ControlsEnd(a: Event, b: Event)
    requires a.isControl && GivesBack(a)
    ensures 1 !in DeliverAll(Plan([a, b])).handled
  {
    hide DeliverAll, Plan, Stops, Admits, GivesBack;
    assert HaltsAt([a, b], 0);
    HandlerRunsIff([a, b], 1);
  }

  /** An answer is handled before the tool calls parsed in front of it, which then do not run: the round fails. */
  lemma AnswerBeforeTools(tool: Event, answer: Event)
    requires !tool.isControl && AnswersNow(answer) && answer.outcome.record.None?
    ensures var f := DeliverAll(Plan([tool, answer])); 0 !in f.handled && f.actionErr.Some?
  {
    var parsed := [tool, answer];
    hide DeliverAll, Plan, Admits, AnswersNow, FailsNow;
    OneEvent(answer);
    assert !HaltsAt(parsed, 0);
    assert IsDispatched(parsed, 1) && Stops(parsed[1]);
    HandlerRunsIff(parsed, 0);
    AnswerFirst(tool, answer);
    FlagsIff(Plan(parsed));
    assert Plan(parsed)[0].event == answer;
  }

  /** A control action whose result is not recorded because of an io.EOF ends the dispatch too, and nobody hears of it:
      what is parsed behind it is lost, and the reading does not fail over the actions. */
  lemma LostSilently(a: Event, b: Event)
    requires a.isControl && Back(a) == Some(EndOfFile)
    ensures 1 !in DeliverAll(Plan([a, b])).handled && ReadErr([a, b]).None?
  {
    hide DeliverAll, Plan, Stops, Admits, Back, ReadErr;
    ControlsEnd(a, b);
    assert HaltsAt([a, b], 0);
    ReadErrIff([a, b]);
  }

  /** An unexpected end of file that ends the dispatch is heard from the first action, and from no other. */
  lemma UnexpectedEndIsHeard(a: Event, b: Event)
    requires a.isControl && Back(a) == Some(UnexpectedEnd)
    ensures ReadErr([a]).Some? && ReadErr([a, b]).Some?
    ensures !b.isControl && Back(b).None? && !Stops(b) ==> ReadErr([b, a]).None?
  {
    hide Stops, Back, ReadErr, Plan;
    assert HaltsAt([a], 0) && HaltsAt([a, b], 0);
    ReadErrIff([a]);
    ReadErrIff([a, b]);
    assert Heard([a], 0) && Heard([a, b], 0);
    if !b.isControl && Back(b).None? && !Stops(b) {
      ReadErrIff([b, a]);
      assert !Heard([b, a], 0) && !Heard([b, a], 1);
    }
  }

  lemma AnswerFirst(tool: Event, answer: Event)
    requires !tool.isControl && answer.isControl && !GivesBack(answer)
    ensures Plan([tool, answer]) == [Delivery(1, answer), Delivery(0, tool)]
  {
    hide GivesBack, Stops;
    var parsed := [tool, answer];
    PickMore([], tool);
    PickMore([tool], answer);
    assert [] + [tool] == [tool] && [tool] + [answer] == parsed;
    assert !HaltsAt(parsed, 0) && !HaltsAt(parsed, 1);
    assert DispatchEnd(parsed, 2) == DispatchEnd(parsed, 1) == DispatchEnd(parsed, 0) == 2;
    assert parsed[..2] == parsed;
  }

  // ----- The verdict -----

  /** What else decides a round: whether it gets to the stream at all, how the stream ends, whether it is a
      text answer of its own, and the hooks on the way out, in their order. */
  datatype Ending = Ending(
    setup: Option<Error>,
    streamErr: Option<Error>,
    nativeTextAnswer: bool,
    persist: Option<Error>,
    updateMessage: Option<Error>,
    afterCall: Option<Error>,
    finishPart: Option<Error>,
    afterStep: Option<Error>,
    onAnswer: Option<Error>)

  /** Nothing around the actions goes wrong. */
  predicate Smooth(e: Ending) {
    && e.setup.None? && e.streamErr.None? && e.persist.None? && e.updateMessage.None?
    && e.afterCall.None? && e.finishPart.None? && e.afterStep.None?
  }

  /** The end of executeAgentIteration, from the return of response.Read on; `readErr` is what Read returned. */
  method Conclude(turn: Turn, readErr: Option<Error>, end: Ending) returns (ended: bool, err: Option<Error>)
    modifies turn
    ensures var f := old(turn.Value());
            var fine := readErr.None? && Smooth(end.(setup := None, streamErr := None)) && f.actionErr.None?
              && (f.actionCount > 0 || end.nativeTextAnswer);
            var answered := (f.answerSeen && !f.sawNonAnswerAction) || end.nativeTextAnswer;
            && (ended <==> fine && answered && end.onAnswer.None?)
            && (err.None? <==> fine && (answered ==> end.onAnswer.None?))
    // which error it is
    ensures var f := old(turn.Value());
            var answered := (f.answerSeen && !f.sawNonAnswerAction) || end.nativeTextAnswer;
            err ==
              if readErr.Some? then FirstOf(end.afterCall, readErr)
              else if end.persist.Some? then end.persist
              else if end.updateMessage.Some? then end.updateMessage
              else if f.actionCount == 0 && !end.nativeTextAnswer then FirstOf(end.afterCall, Some(MissingAction))
              else if f.actionErr.Some? then FirstOf(end.afterCall, f.actionErr)
              else FirstOf(end.afterCall, FirstOf(end.finishPart, FirstOf(end.afterStep,
                           if answered then end.onAnswer else None)))
  {
    ended, err := false, None;
    if readErr.Some? && turn.actionErr.None? {
      turn.actionErr := readErr;
    }
    if turn.answerSeen && turn.sawNonAnswerAction {
      turn.answerSeen := false;
    }
    if readErr.Some? {
      err := FirstOf(end.afterCall, readErr);
      return;
    }
    if end.persist.Some? {
      err := end.persist;
      return;
    }
    if end.updateMessage.Some? {
      err := end.updateMessage;
      return;
    }
    if turn.actionCount == 0 && !end.nativeTextAnswer {
      err := FirstOf(end.afterCall, Some(MissingAction));
      return;
    }
    if turn.actionErr.Some? {
      err := FirstOf(end.afterCall, turn.actionErr);
      return;
    }
    if end.afterCall.Some? {
      err := end.afterCall;
      return;
    }
    if end.finishPart.Some? {
      err := end.finishPart;
      return;
    }
    if end.afterStep.Some? {
      err := end.afterStep;
      return;
    }
    if turn.answerSeen || end.nativeTextAnswer {
      if end.onAnswer.Some? {
        err := end.onAnswer;
        return;
      }
      ended := true;
    }
  }

  /** Nothing in the round, nor around it, fails. */
  ghost predicate Fine(parsed: seq<Event>, end: Ending) {
    && Smooth(end) && DeliverAll(Plan(parsed)).actionErr.None? && ReadErr(parsed).None?
    && (parsed != [] || end.nativeTextAnswer)
  }

  ghost predicate Answered(parsed: seq<Event>, end: Ending) {
    end.nativeTextAnswer || OneAnswer(parsed)
  }

  /** The dispatch of the parsed actions: control actions are handled on the spot, until one gives an error back;
      tool calls are queued. An io.EOF is not kept; `emitted` says that an action was dispatched without an error. */
  method Dispatch(parsed: seq<Event>, turn: Turn)
    returns (queue: seq<Delivery>, parseErr: Option<Error>, emitted: bool)
    requires turn.Value() == FRESH
    modifies turn
    ensures turn.Value() == DeliverAll(Pick(Dispatched(parsed), true)) && queue == Pick(Dispatched(parsed), false)
    ensures parseErr == if DispatchErr(parsed) == Some(EndOfFile) then None else DispatchErr(parsed)
    ensures emitted <==> |Dispatched(parsed)| > if DispatchErr(parsed).Some? then 1 else 0
  {
    hide DeliverAll, Deliver, Stops, Back, Open, HaltsAt, Pick;
    NothingPicked();
    queue, parseErr, emitted := [], None, false;
    ghost var done: seq<Event> := [];
    var k := 0;
    while k < |parsed|
      invariant 0 <= k <= |parsed| && done == parsed[..k] && (emitted <==> k > 0)
      invariant DispatchEnd(parsed, k) == DispatchEnd(parsed, 0)
      invariant turn.Value() == DeliverAll(Pick(done, true)) && queue == Pick(done, false)
      invariant parseErr.None? && turn.returned.None?
    {
      var e := parsed[k];
      PickMore(done, e);
      ghost var before := turn.Value();
      var err := None;
      if e.isControl {
        err := turn.ApplyControlAction(e, k);
        HaltsIff(parsed, k);
        DeliverActs(before, k, e);
      } else {
        queue := queue + [Delivery(k, e)];
        ToolsGoOn(parsed, k);
      }
      k, done := k + 1, done + [e];
      if err.Some? {
        assert Dispatched(parsed) == done;
        if err != Some(EndOfFile) {
          parseErr := err;
        }
        return;
      }
      emitted := true;
    }
    assert Dispatched(parsed) == done;
  }

  lemma QueueErrNext(before: seq<Delivery>, done: seq<Delivery>, d: Delivery)
    ensures QueueErr(before, done + [d]) ==
            FirstOf(QueueErr(before, done), if Open(DeliverAll(before + done)) then Back(d.event) else None)
  {
    hide Open, Back, DeliverAll;
    assert (done + [d])[..|done|] == done;
  }

  /** What Wait makes of the error kept, and then of everything else that can go wrong with the stream. */
  method Wait(parseErr: Option<Error>, emitted: bool, streamErr: Option<Error>) returns (err: Option<Error>)
    ensures err == FirstOf(if parseErr == Some(UnexpectedEnd) && emitted then None else parseErr, streamErr)
  {
    if parseErr.Some? {
      if parseErr != Some(UnexpectedEnd) || !emitted {
        return parseErr;
      }
    }
    return streamErr;
  }

  lemma PickMore(done: seq<Event>, e: Event)
    ensures Pick(done + [e], e.isControl) == Pick(done, e.isControl) + [Delivery(|done|, e)]
    ensures Pick(done + [e], !e.isControl) == Pick(done, !e.isControl)
    ensures DeliverAll(Pick(done + [e], e.isControl)) == Deliver(DeliverAll(Pick(done, e.isControl)), |done|, e)
  {
    assert (done + [e])[..|done|] == done;
    DeliverNext(Pick(done, e.isControl), Delivery(|done|, e));
  }

  /** A control action ends the dispatch exactly when it gives its error back to a round that is still open. */
  lemma HaltsIff(parsed: seq<Event>, k: nat)
    requires k < |parsed| && parsed[k].isControl
    ensures HaltsAt(parsed, k) <==> Open(DeliverAll(Pick(parsed[..k], true))) && GivesBack(parsed[k])
  {
    hide Stops, GivesBack;
    OpenIff(Pick(parsed[..k], true));
    PickClear(parsed[..k], true);
  }

  /** The queued tool calls, once everything is dispatched; an error comes first from them. */
  method DeliverQueue(queue: seq<Delivery>, turn: Turn, ghost before: seq<Delivery>) returns (err: Option<Error>)
    requires turn.Value() == DeliverAll(before) && forall i :: 0 <= i < |queue| ==> !queue[i].event.isControl
    modifies turn
    ensures turn.Value() == DeliverAll(before + queue)
    ensures turn.returned == FirstOf(old(turn.returned), err) && err == QueueErr(before, queue)
  {
    hide DeliverAll, Deliver, Open, Back;
    err := None;
    ghost var done: seq<Delivery> := [];
    assert before + [] == before;
    var i := 0;
    while i < |queue|
      invariant 0 <= i <= |queue| && done == queue[..i]
      invariant turn.Value() == DeliverAll(before + done) && turn.returned == FirstOf(old(turn.returned), err)
      invariant err == QueueErr(before, done)
    {
      var d := queue[i];
      DeliverNext(before + done, d);
      Assoc(before, done, [d]);
      QueueErrNext(before, done, d);
      var back := turn.ToolCallCallback(d.event, d.place);
      err := FirstOf(err, back);
      i, done := i + 1, done + [d];
    }
    assert done == queue;
  }

  /** One round, on the actions that the model's output was parsed to. What ends the run without a text answer of
      the model's own is exactly one action that is an answer and succeeds. */
  method ExecuteAgentIteration(parsed: seq<Event>, end: Ending) returns (ended: bool, err: Option<Error>)
    ensures ended <==> Fine(parsed, end) && Answered(parsed, end) && end.onAnswer.None?
    ensures err.None? <==> Fine(parsed, end) && (Answered(parsed, end) ==> end.onAnswer.None?)
    ensures !end.nativeTextAnswer ==> (ended <==> Smooth(end) && end.onAnswer.None? && OneAnswer(parsed))
    ensures !end.nativeTextAnswer ==>
              (ended <==>
               && end.setup.None? && end.streamErr.None? && end.persist.None? && end.updateMessage.None?
               && end.afterCall.None? && end.finishPart.None? && end.afterStep.None? && end.onAnswer.None?
               && parsed != [] && parsed[0].isControl && parsed[0].name == "answer"
               && parsed[0].outcome.cancelled.None? && parsed[0].outcome.handler.None?
               && (forall i :: 0 <= i < |parsed[0].outcome.updates| ==> parsed[0].outcome.updates[i].None?)
               && (parsed[0].outcome.record == Some(EndOfFile)
                   || (parsed[0].outcome.record.None? && |parsed| == 1)))
  {
    hide DeliverAll, OneAnswer, Deliver, AnswersNow, FailsNow, Clear, Pick, Dispatched, DispatchErr, QueueErr, ReadErr;
    ended, err := false, end.setup;
    if err.Some? {
      return;
    }
    var turn := new Turn();
    var queue, parseErr, emitted := Dispatch(parsed, turn);
    QueueIsTools(Dispatched(parsed));
    var toolErr := DeliverQueue(queue, turn, Pick(Dispatched(parsed), true));
    FlagsIff(Plan(parsed));
    PlanSize(parsed);
    OneAnswerIff(parsed);
    OneAnswerIs(parsed);
    ReadErrParts(parsed);
    var waitErr := Wait(parseErr, emitted, end.streamErr);
    ended, err := Conclude(turn, FirstOf(toolErr, waitErr), end);
  }

  lemma ReadErrParts(parsed: seq<Event>)
    ensures var d, e := Dispatched(parsed), DispatchErr(parsed);
            ReadErr(parsed) ==
            FirstOf(QueueErr(Pick(d, true), Pick(d, false)),
                    if e == Some(EndOfFile) || (e == Some(UnexpectedEnd) && |d| > 1) then None else e)
  {
    hide Pick, QueueErr;
    NothingPicked();
  }

  lemma QueueIsTools(d: seq<Event>)
    ensures var queue := Pick(d, false); forall i :: 0 <= i < |queue| ==> !queue[i].event.isControl
  {
    forall i | 0 <= i < |Pick(d, false)|
      ensures !Pick(d, false)[i].event.isControl
    {
      InPick(d, false, i);
    }
  }

  lemma NothingDelivered()
    ensures DeliverAll([]) == FRESH
  {
  }

  lemma DeliverNext(ds: seq<Delivery>, d: Delivery)
    ensures DeliverAll(ds + [d]) == Deliver(DeliverAll(ds), d.place, d.event)
  {
    assert (ds + [d])[..|ds|] == ds;
  }

  // ----- The run -----

  /** What the model and the hooks do in each round, and the tools of the registry, if there is one. */
  datatype World = World(
    rounds: nat -> (seq<Event>, Ending),
    updates: nat -> Option<Error>,
    supplements: nat -> Option<Error>,
    appendUserText: Option<Error>,
    registry: Option<seq<string>>)

  /** One call of executeAgentIteration: the step number, the tools, and whether it is the last chance to answer. */
  datatype Call = Call(step: nat, tools: seq<string>, finalPass: bool)

  /** The limit on the rounds: the state's, else the configured one, else the default; one in single-step mode. */
  function MaxIterations(maxSteps: int, configured: int, singleStep: bool): (n: int)
    ensures n > 0
  {
    if singleStep then 1
    else if maxSteps > 0 then maxSteps
    else if configured > 0 then configured
    else DEFAULT_MAX_RUN_STEPS
  }

  /** Does round `step` go on: it did not fail and did not end the run? */
  ghost predicate GoesOn(world: World, step: nat) {
    var (parsed, end) := world.rounds(step);
    Fine(parsed, end) && !Answered(parsed, end)
  }

  /** Does round `step` end the run, with success? */
  ghost predicate Ends(world: World, step: nat) {
    var (parsed, end) := world.rounds(step);
    Fine(parsed, end) && Answered(parsed, end) && end.onAnswer.None?
  }

  /** Another round is made after round `step`, as far as the limit allows. */
  ghost predicate Next(world: World, step: nat) {
    GoesOn(world, step) && world.supplements(step).None? && world.updates(step).None?
  }

  /** Nothing fails before the first round. */
  predicate Starts(world: World) {
    world.appendUserText.None? && world.updates(0).None? && world.supplements(0).None?
  }

  /** The run makes `n` rounds where at most `last` are allowed: none if it does not start, else one, and another
      one behind each that has a next one. */
  ghost predicate Makes(world: World, last: nat, n: nat) {
    if !Starts(world) then n == 0
    else 1 <= n <= last && (forall k :: 1 <= k < n ==> Next(world, k)) && (n < last ==> !Next(world, n))
  }

  /** That fixes the number of rounds. */
  lemma MakesUnique(world: World, last: nat, n: nat, n': nat)
    requires Makes(world, last, n) && Makes(world, last, n')
    ensures n == n'
  {
    hide Next, Starts;
  }

  class RunState {
    var tools: seq<string>
    var maxStepsExhaustedFinalPass: bool
    const maxSteps: int
    const singleStep: bool

    constructor (tools: seq<string>, maxSteps: int, singleStep: bool)
      ensures this.tools == tools && this.maxSteps == maxSteps && this.singleStep == singleStep
      ensures !maxStepsExhaustedFinalPass
    {
      this.tools, this.maxSteps, this.singleStep, maxStepsExhaustedFinalPass := tools, maxSteps, singleStep, false;
    }
  }

  /** One round of the run. */
  method Round(world: World, step: nat) returns (ended: bool, err: Option<Error>)
    ensures ended ==> err.None?
    ensures ended <==> Ends(world, step)
    ensures !ended && err.None? <==> GoesOn(world, step)
  {
    var (parsed, end) := world.rounds(step);
    ended, err := ExecuteAgentIteration(parsed, end);
  }

  /** The rounds made so far are numbered from 1 and have the tools `tools`. */
  predicate Numbered(calls: seq<Call>, tools: seq<string>, finalPass: bool) {
    forall k :: 0 <= k < |calls| ==> calls[k] == Call(k + 1, tools, finalPass)
  }

  /** The run before its last chance: round after round, up to `max`. */
  method Loop(world: World, tools: seq<string>, finalPass: bool, max: nat)
    returns (ended: bool, err: Option<Error>, calls: seq<Call>)
    requires max > 0
    ensures Numbered(calls, tools, finalPass)
    ensures 1 <= |calls| <= max && (forall k :: 1 <= k < |calls| ==> Next(world, k))
    ensures |calls| < max ==> !Next(world, |calls|)
    ensures ended <==> Ends(world, |calls|) && world.supplements(|calls|).None?
    ensures ended ==> err.None?
    ensures err.None? && !ended <==> |calls| == max && GoesOn(world, max) && world.supplements(max).None?
  {
    hide GoesOn, Ends;
    ended, err, calls := false, None, [];
    var step := 0;
    while step < max
      invariant 0 <= step <= max && |calls| == step && Numbered(calls, tools, finalPass) && err.None? && !ended
      invariant forall k :: 1 <= k < step ==> Next(world, k)
      invariant step > 0 ==> GoesOn(world, step) && !Ends(world, step) && world.supplements(step).None?
    {
      if step > 0 {
        err := world.updates(step);
        if err.Some? {
          return;
        }
      }
      calls := calls + [Call(step + 1, tools, finalPass)];
      ended, err := Round(world, step + 1);
      if err.Some? {
        return;
      }
      err := world.supplements(step + 1);
      if err.Some? {
        ended := false;
        return;
      }
      if ended {
        return;
      }
      step := step + 1;
    }
  }

  /** The rounds are numbered from 1; the one after the limit has the answer tool alone. */
  predicate Calls(calls: seq<Call>, max: nat, tools: seq<string>, finalPass: bool) {
    forall k :: 0 <= k < |calls| ==>
      calls[k] == (if k < max then Call(k + 1, tools, finalPass) else Call(k + 1, ["answer"], true))
  }

  /** All rounds of the limit go on, and the message cannot be updated for the one after them. */
  ghost predicate StopsShort(world: World, max: nat) {
    && Starts(world) && max > 0 && (forall k :: 1 <= k < max ==> Next(world, k))
    && GoesOn(world, max) && world.supplements(max).None? && world.updates(max).Some?
  }

  /** After `n` rounds, with the limit `max`, the run is over without an error: the last round ended it, or there
      was none left. Supplements are not read behind the extra round. */
  ghost predicate Succeeds(world: World, max: nat, singleStep: bool, n: nat) {
    && n > 0
    && if n > max then Ends(world, n) || GoesOn(world, n)
       else world.supplements(n).None? && (Ends(world, n) || (singleStep && GoesOn(world, n)))
  }

  /** The tools of the run: the state's own, or those of the registry when it has none. */
  function ToolsOf(tools: seq<string>, registry: Option<seq<string>>): seq<string> {
    if tools == [] && registry.Some? then registry.value else tools
  }

  /** What comes before the first round. */
  method Begin(state: RunState, world: World) returns (err: Option<Error>)
    modifies state`tools
    ensures state.tools == ToolsOf(old(state.tools), world.registry)
    ensures err.None? <==> Starts(world)
  {
    if |state.tools| == 0 && world.registry.Some? {
      state.tools := world.registry.value;
    }
    err := world.appendUserText;
    if err.Some? {
      return;
    }
    err := world.updates(0);
    if err.Some? {
      return;
    }
    err := world.supplements(0);
  }

  /** What a run does, in terms of its world. It makes the rounds that `Makes` fixes, one more than its limit at the
      most; the extra one is the last chance, with the answer tool alone. It leaves the tools as they were for the
      first round, except when it stops between the limit and the last chance. */
  method Run(state: RunState, configured: int, world: World) returns (err: Option<Error>, calls: seq<Call>)
    modifies state
    ensures var max, n := MaxIterations(state.maxSteps, configured, state.singleStep), |calls|;
            var tools := ToolsOf(old(state.tools), world.registry);
            && Makes(world, if state.singleStep then max else max + 1, n)
            && Calls(calls, max, tools, old(state.maxStepsExhaustedFinalPass))
            && (err.None? <==> Succeeds(world, max, state.singleStep, n))
            && (if StopsShort(world, max) && !state.singleStep
                then state.tools == ["answer"] && state.maxStepsExhaustedFinalPass && err.Some?
                else state.tools == tools
                     && state.maxStepsExhaustedFinalPass == (n <= max && old(state.maxStepsExhaustedFinalPass)))
    // the limit: the state's own comes first, and one more round is the last chance
    ensures state.singleStep ==> |calls| <= 1 && Makes(world, 1, |calls|)
    ensures !state.singleStep && state.maxSteps > 0 ==>
              |calls| <= state.maxSteps + 1 && Makes(world, state.maxSteps + 1, |calls|)
    ensures !state.singleStep && state.maxSteps <= 0 && configured > 0 ==>
              |calls| <= configured + 1 && Makes(world, configured + 1, |calls|)
    ensures !state.singleStep && state.maxSteps <= 0 && configured <= 0 ==>
              |calls| <= 1001 && Makes(world, 1001, |calls|)
  {
    hide GoesOn, Ends, Starts, ToolsOf;
    calls := [];
    err := Begin(state, world);
    if err.Some? {
      return;
    }
    var maxIterations := state.maxSteps;
    if maxIterations <= 0 {
      maxIterations := configured;
    }
    if maxIterations <= 0 {
      maxIterations := DEFAULT_MAX_RUN_STEPS;
    }
    if state.singleStep {
      maxIterations := 1;
    }
    var ended;
    ended, err, calls := Loop(world, state.tools, state.maxStepsExhaustedFinalPass, maxIterations);
    if err.Some? || ended || state.singleStep {
      return;
    }
    var origTools := state.tools;
    state.maxStepsExhaustedFinalPass := true;
    state.tools := ["answer"];
    err := world.updates(maxIterations);
    if err.Some? {
      return;
    }
    calls := calls + [Call(maxIterations + 1, state.tools, state.maxStepsExhaustedFinalPass)];
    ended, err := Round(world, maxIterations + 1);
    state.maxStepsExhaustedFinalPass := false;
    state.tools := origTools;
  }

  // ----- A run that does not restore its tools -----

  const TOOL := Event(false, "tool", Outcome(None, None, false, None, [], None))
  const SMOOTH := Ending(None, None, false, None, None, None, None, None, None)

  /** A round with one tool call that goes through is fine and does not answer. */
  lemma ToolRound()
    ensures Fine([TOOL], SMOOTH) && !Answered([TOOL], SMOOTH)
  {
    hide DeliverAll, Plan, ReadErr, Stops, Deliver;
    ToolActs();
    var parsed := [TOOL];
    assert !OneAnswer(parsed);
    ReadErrIff(parsed);
    forall j: nat
      ensures !Heard(parsed, j)
    {
      if Reached(parsed, j) {
        ReachedIsDispatched(parsed, j);
      }
    }
    PlanSize(parsed);
    FlagsIff(Plan(parsed));
    forall i | 0 <= i < |Plan(parsed)|
      ensures Plan(parsed)[i].event == TOOL
    {
      ReachedAt(parsed, i);
    }
    NothingBefore(Plan(parsed));
  }

  lemma ToolActs()
    ensures Back(TOOL).None? && !AnswersNow(TOOL) && !FailsNow(TOOL)
  {
    assert TrimSpace("tool") != "";
  }

  /** In a world where every round calls one tool and goes on, and the update of the message fails for the extra
      round, the tools are not restored, whatever the limit. */
  lemma CanStopShort(max: nat) returns (world: World)
    requires max > 0
    ensures StopsShort(world, max)
  {
    hide Fine, Answered;
    ToolRound();
    world := World(step => ([TOOL], SMOOTH), step => if step == max then Some(External("update")) else None,
                   step => None, None, None);
  }
}

/** agent/session/stream_reader.go: a reader goroutine copies a source into a pipe while a ticker
    goroutine reports the accumulated content to a callback. The two share `content`, `lastEmitted`
    and `callbackErr` (under contentMu), a callback lock, and a close that runs once.

    The model is a step system. One step is what a goroutine does while it holds contentMu, one lock
    operation, one call into the source, the callback or the pipe; a run is any sequence of enabled
    steps, so every interleaving is covered. Channel operations of the consumer are steps too. */
module StreamReader {
  import opened GoStrings

  type Bytes = string

  datatype Who = Reader | Ticker

  /** An error value: io.EOF, or any other. */
  datatype Err = IoEof | Other(text: string)

  const CLOSED_PIPE := Other("io: read/write on closed pipe")

  /** How a source read ends; an io.EOF is not an error here. */
  datatype SourceErr = NoErr | Eof | Failed(text: string)

  /** What a callback, or emit, returns. */
  datatype Result = Okay | Error(err: Err)

  /** What PipeReader.Read returns at the end of a pipe that was closed without an error, or with one. */
  function Seen(closed: Result): Err {
    if closed.Okay? then IoEof else closed.err
  }

  /** Where a goroutine is. */
  datatype Pc =
    | AtTop                                             // reader: source.Read; ticker: select
    | Append(chunk: Bytes, rerr: SourceErr)             // content.Write, under contentMu
    | Write(chunk: Bytes, rerr: SourceErr)              // pipeWriter.Write
    | WriteFailed                                       // getCallbackErr, after the pipe refused the chunk
    | Check(rerr: SourceErr)                            // what to do with the source's error
    | Lock(force: bool)                                 // emit: callbackMu.Lock
    | Snap(force: bool)                                 // emit: snapshot, previous and err, under contentMu
    | Calling(snapshot: Bytes)                          // emit: inside the callback
    | Record(snapshot: Bytes, outcome: Result)          // emit: setCallbackErr or lastEmitted, under contentMu
    | Unlock(outcome: Result)                           // emit: deferred callbackMu.Unlock
    | Close(err: Result)                                // closePipe: closeOnce.Do
    | Closing(err: Result)                              // inside the once: the pipe is closed next
    | Finished

  /** closeOnce: a second caller blocks until the first has run the body. */
  datatype Once = NotRun | Running(owner: Who) | Ran

  datatype Config = Config(hasCallback: bool, hasTicker: bool)

  datatype State = State(
    reader: Pc,
    ticker: Pc,
    content: Bytes,
    lastEmitted: Bytes,
    callbackErr: Option<Err>,
    callbackMu: Option<Who>,
    once: Once,
    lifecycleEnd: bool,
    pipe: Bytes,                  // written, not yet consumed
    pipeClosed: Option<Result>,   // Okay: closed without an error
    // observed from outside
    source: Bytes,                // all bytes the source has handed out
    sourceEnd: SourceErr,
    consumed: Bytes,              // all bytes the consumer has got
    consumerEnd: Option<Err>,     // what the consumer's last Read returned
    calls: seq<Bytes>,            // the snapshots with which the callback was invoked, in order
    outcomes: seq<Result>)        // what the callback returned, in order

  datatype Step =
    | SourceRead(chunk: Bytes, rerr: SourceErr)
    | Advance(who: Who)                           // the goroutine's next step, where it has only one
    | TickerTick                                  // select: the tick
    | TickerStop                                  // select: lifecycleEnd is closed
    | CallbackReturns(who: Who, outcome: Result)
    | ConsumerRead(n: nat)
    | ConsumerEnds

  function Init(c: Config): State {
    State(AtTop, if c.hasTicker && c.hasCallback then AtTop else Finished, "", "", None, None, NotRun, false, "", None,
          "", NoErr, "", None, [], [])
  }

  function PcOf(s: State, who: Who): Pc {
    if who.Reader? then s.reader else s.ticker
  }

  function Goto(s: State, who: Who, pc: Pc): State {
    if who.Reader? then s.(reader := pc) else s.(ticker := pc)
  }

  /** Which steps can be taken in `s`. */
  predicate Enabled(s: State, step: Step) {
    match step
    case SourceRead(chunk, rerr) => s.reader.AtTop?
    case TickerTick => s.ticker.AtTop?
    case TickerStop => s.ticker.AtTop? && s.lifecycleEnd
    case CallbackReturns(who, _) => PcOf(s, who).Calling?
    case ConsumerRead(n) => 0 < n <= |s.pipe|
    case ConsumerEnds => s.pipe == "" && s.pipeClosed.Some?
    case Advance(who) =>
      match PcOf(s, who)
      case AtTop => false
      case Calling(_) => false
      case Finished => false
      case Lock(_) => s.callbackMu.None?
      case Close(_) => s.once.NotRun? || s.once.Ran?
      case _ => true
  }

  /** Where emit returns to: the reader closes the pipe either way, the ticker only after an error. */
  function AfterEmit(who: Who, outcome: Result): Pc {
    if who.Reader? || outcome.Error? then Close(outcome) else AtTop
  }

  /** The next step of a goroutine, where it has only one. */
  function Move(c: Config, s: State, who: Who): State
    requires Enabled(s, Advance(who))
  {
    match PcOf(s, who)
    case Append(chunk, rerr) =>
      Goto(s.(content := s.content + chunk), who, Write(chunk, rerr))
    case Write(chunk, rerr) =>
      if s.pipeClosed.Some? then Goto(s, who, WriteFailed)
      else Goto(s.(pipe := s.pipe + chunk), who, Check(rerr))
    case WriteFailed =>
      Goto(s, who, Close(Error(if s.callbackErr.Some? then s.callbackErr.value else CLOSED_PIPE)))
    case Check(rerr) =>
      if rerr.NoErr? then Goto(s, who, AtTop)
      else if s.callbackErr.Some? then Goto(s, who, Close(Error(s.callbackErr.value)))
      else if rerr.Eof? then Goto(s, who, if c.hasCallback then Lock(true) else Close(Okay))
      else Goto(s, who, Close(Error(Other(rerr.text))))
    case Lock(force) =>
      Goto(s.(callbackMu := Some(who)), who, Snap(force))
    case Snap(force) =>
      if s.callbackErr.Some? then Goto(s, who, Unlock(Error(s.callbackErr.value)))
      else if !force && s.content == s.lastEmitted then Goto(s, who, Unlock(Okay))
      else Goto(s.(calls := s.calls + [s.content]), who, Calling(s.content))
    case Record(snapshot, outcome) =>
      if outcome.Error?
      then Goto(s.(callbackErr := if s.callbackErr.None? then Some(outcome.err) else s.callbackErr), who,
                Unlock(outcome))
      else Goto(s.(lastEmitted := snapshot), who, Unlock(outcome))
    case Unlock(outcome) =>
      Goto(s.(callbackMu := None), who, AfterEmit(who, outcome))
    case Close(err) =>
      if s.once.NotRun? then Goto(s.(once := Running(who), lifecycleEnd := true), who, Closing(err))
      else Goto(s, who, Finished)
    case Closing(err) =>
      Goto(s.(once := Ran, pipeClosed := Some(err)), who, Finished)
  }

  function Apply(c: Config, s: State, step: Step): State
    requires Enabled(s, step)
  {
    match step
    case SourceRead(chunk, rerr) =>
      s.(source := s.source + chunk, sourceEnd := rerr,
         reader := if chunk != "" then Append(chunk, rerr) else Check(rerr))
    case TickerTick => s.(ticker := Lock(false))
    case TickerStop => s.(ticker := Finished)
    case CallbackReturns(who, outcome) =>
      Goto(s.(outcomes := s.outcomes + [outcome]), who, Record(PcOf(s, who).snapshot, outcome))
    case ConsumerRead(n) =>
      s.(consumed := s.consumed + s.pipe[..n], pipe := s.pipe[n..])
    case ConsumerEnds => s.(consumerEnd := Some(Seen(s.pipeClosed.value)))
    case Advance(who) => Move(c, s, who)
  }

  /** `s'` is reached from `s` by taking `steps` one after the other. */
  ghost predicate Run(c: Config, s: State, steps: seq<Step>, s': State)
    decreases |steps|
  {
    if steps == [] then s == s'
    else Enabled(s, steps[0]) && Run(c, Apply(c, s, steps[0]), steps[1..], s')
  }

  // ----- The invariant -----

  predicate HoldsLock(pc: Pc) {
    pc.Snap? || pc.Calling? || pc.Record? || pc.Unlock?
  }

  /** The locks and the once are held by whoever the program counters say. */
  predicate LocksInv(s: State) {
    && (s.callbackMu == Some(Reader) <==> HoldsLock(s.reader))
    && (s.callbackMu == Some(Ticker) <==> HoldsLock(s.ticker))
    && (s.once == Running(Reader) <==> s.reader.Closing?)
    && (s.once == Running(Ticker) <==> s.ticker.Closing?)
    && (s.lifecycleEnd <==> !s.once.NotRun?)
    && (s.pipeClosed.Some? <==> s.once.Ran?)
  }

  /** Where each goroutine can be, and what it then knows about the source. */
  predicate PlacesInv(c: Config, s: State) {
    && !s.ticker.Append? && !s.ticker.Write? && !s.ticker.WriteFailed? && !s.ticker.Check?
    && (s.ticker.Lock? ==> !s.ticker.force) && (s.ticker.Snap? ==> !s.ticker.force)
    && (s.reader.Lock? ==> s.reader.force) && (s.reader.Snap? ==> s.reader.force)
    && (s.reader.AtTop? ==> s.sourceEnd.NoErr?)
    && (s.reader.Append? || s.reader.Write? || s.reader.Check? ==> s.sourceEnd == s.reader.rerr)
    && (s.reader.Lock? || HoldsLock(s.reader) ==> s.sourceEnd.Eof? && c.hasCallback)
    && (s.reader.Calling? || s.reader.Record? ==> s.reader.snapshot == s.content)
    && (!c.hasCallback ==> s.ticker.Finished? && s.calls == [])
    && (s.ticker.Close? || s.ticker.Closing? ==> c.hasCallback)
  }

  /** The bytes a goroutine carries between two places. */
  function Unappended(s: State): Bytes {
    if s.reader.Append? then s.reader.chunk else ""
  }

  function Unwritten(s: State): Bytes {
    if s.reader.Write? then s.reader.chunk else ""
  }

  /** The reader has lost a chunk, or is about to end without having copied everything. */
  predicate Broken(s: State) {
    || s.reader.WriteFailed?
    || ((s.reader.Close? || s.reader.Closing?) && s.reader.err.Error?)
    || (s.reader.Finished? && s.pipeClosed != Some(Okay))
  }

  /** No byte is lost, doubled or reordered between the source and the consumer. */
  predicate BytesInv(s: State) {
    && s.source == s.content + Unappended(s)
    && (!Broken(s) ==> s.content == s.consumed + s.pipe + Unwritten(s))
    && (s.consumed + s.pipe) <= s.content
    && (s.consumerEnd.Some? ==>
        s.pipeClosed.Some? && s.consumerEnd.value == Seen(s.pipeClosed.value) && s.pipe == "")
  }

  predicate Chain(calls: seq<Bytes>) {
    forall i, j :: 0 <= i <= j < |calls| ==> calls[i] <= calls[j]
  }

  predicate AllOkay(outcomes: seq<Result>) {
    forall i :: 0 <= i < |outcomes| ==> outcomes[i].Okay?
  }

  function Last<T>(xs: seq<T>): Option<T> {
    if xs == [] then None else Some(xs[|xs| - 1])
  }

  predicate HasError(outcomes: seq<Result>) {
    outcomes != [] && outcomes[|outcomes| - 1].Error?
  }

  /** The callback is invoked with growing prefixes of the content, and only the last outcome may be an error. */
  predicate History(calls: seq<Bytes>, outcomes: seq<Result>, content: Bytes) {
    && Chain(calls)
    && (calls != [] ==> calls[|calls| - 1] <= content)
    && (outcomes != [] ==> AllOkay(outcomes[..|outcomes| - 1]))
  }

  predicate CallerInv(s: State, pc: Pc) {
    && (pc.Calling? ==> s.callbackErr.None? && !HasError(s.outcomes) && Last(s.calls) == Some(pc.snapshot))
    && (pc.Record? ==>
        s.callbackErr.None? && Last(s.outcomes) == Some(pc.outcome) && Last(s.calls) == Some(pc.snapshot))
    && (pc.Unlock? && pc.outcome.Error? ==> s.callbackErr == Some(pc.outcome.err))
  }

  /** One invocation at a time, and none once the callback has failed. */
  predicate CallsInv(s: State) {
    && History(s.calls, s.outcomes, s.content)
    && |s.calls| == |s.outcomes| + (if s.reader.Calling? then 1 else 0) + (if s.ticker.Calling? then 1 else 0)
    && CallerInv(s, s.reader) && CallerInv(s, s.ticker)
    && (s.callbackErr.Some? ==> Last(s.outcomes) == Some(Error(s.callbackErr.value)))
    && (HasError(s.outcomes) ==> s.callbackErr.Some? || s.reader.Record? || s.ticker.Record?)
  }

  /** The reader has gone past a final callback that succeeded. */
  predicate Sealed(s: State) {
    || (s.reader.Unlock? && s.reader.outcome.Okay?)
    || ((s.reader.Close? || s.reader.Closing?) && s.reader.err.Okay?)
    || s.pipeClosed == Some(Okay)
  }

  predicate SealedInv(c: Config, s: State) {
    Sealed(s) ==>
      && s.sourceEnd.Eof? && s.callbackErr.None?
      && !s.ticker.Calling? && !s.ticker.Record? && !s.ticker.Close? && !s.ticker.Closing?
      && (s.ticker.Unlock? ==> s.ticker.outcome.Okay?)
      && (s.reader.Unlock? || s.reader.Close? || s.reader.Closing? || s.reader.Finished?)
      && (c.hasCallback ==>
          s.lastEmitted == s.content && Last(s.calls) == Some(s.content) && Last(s.outcomes) == Some(Okay))
  }

  /** Whoever closes the pipe with an error has it from the callback or from the source. */
  predicate CloserInv(s: State) {
    && ((s.ticker.Close? || s.ticker.Closing?) ==> s.ticker.err.Error? && s.callbackErr == Some(s.ticker.err.err))
    && ((s.reader.Close? || s.reader.Closing?) && s.reader.err.Error? ==> FromOutside(s, s.reader.err.err))
    && (s.reader.WriteFailed? ==> s.callbackErr.Some?)
    && (s.pipeClosed.Some? && s.pipeClosed.value.Error? ==> FromOutside(s, s.pipeClosed.value.err))
    && (s.pipeClosed.Some? && !s.reader.Finished? ==> s.callbackErr.Some?)
    && (s.reader.Finished? ==> s.once.Ran?)
  }

  predicate FromOutside(s: State, err: Err) {
    s.callbackErr == Some(err) || (err.Other? && s.sourceEnd == Failed(err.text))
  }

  predicate Inv(c: Config, s: State) {
    LocksInv(s) && PlacesInv(c, s) && BytesInv(s) && CallsInv(s) && SealedInv(c, s) && CloserInv(s)
  }

  lemma InitInv(c: Config)
    ensures Inv(c, Init(c))
  {
  }

  // ----- Every step keeps the invariant -----

  lemma HistoryCall(calls: seq<Bytes>, outcomes: seq<Result>, content: Bytes)
    requires History(calls, outcomes, content)
    ensures History(calls + [content], outcomes, content)
  {
  }

  lemma HistoryReturn(calls: seq<Bytes>, outcomes: seq<Result>, content: Bytes, outcome: Result)
    requires History(calls, outcomes, content) && !HasError(outcomes)
    ensures History(calls, outcomes + [outcome], content)
  {
    assert (outcomes + [outcome])[..|outcomes|] == outcomes;
  }

  lemma HistoryGrow(calls: seq<Bytes>, outcomes: seq<Result>, content: Bytes, chunk: Bytes)
    requires History(calls, outcomes, content)
    ensures History(calls, outcomes, content + chunk)
  {
  }

  lemma SourceReadStep(c: Config, s: State, step: Step)
    requires Inv(c, s) && Enabled(s, step) && (step.SourceRead?)
    ensures Inv(c, Apply(c, s, step))
  {
    hide History;
  }

  lemma AppendStep(c: Config, s: State, step: Step)
    requires Inv(c, s) && Enabled(s, step) && (step == Advance(Reader) && s.reader.Append?)
    ensures Inv(c, Apply(c, s, step))
  {
    hide History;
    HistoryGrow(s.calls, s.outcomes, s.content, s.reader.chunk);
  }

  lemma WriteStep(c: Config, s: State, step: Step)
    requires Inv(c, s) && Enabled(s, step) && (step == Advance(Reader) && s.reader.Write?)
    ensures Inv(c, Apply(c, s, step))
  {
    hide History;
    Assoc(s.consumed, s.pipe, s.reader.chunk);
  }

  lemma WriteFailedStep(c: Config, s: State, step: Step)
    requires Inv(c, s) && Enabled(s, step) && (step == Advance(Reader) && s.reader.WriteFailed?)
    ensures Inv(c, Apply(c, s, step))
  {
    hide History;
  }

  lemma CheckAgainStep(c: Config, s: State, step: Step)
    requires Inv(c, s) && Enabled(s, step) && (step == Advance(Reader) && s.reader == Check(NoErr))
    ensures Inv(c, Apply(c, s, step))
  {
    hide History;
  }

  lemma CheckFailedStep(c: Config, s: State, step: Step)
    requires Inv(c, s) && Enabled(s, step) && (step == Advance(Reader) && s.reader.Check? && !s.reader.rerr.NoErr?)
    requires s.callbackErr.Some? || s.reader.rerr.Failed?
    ensures Inv(c, Apply(c, s, step))
  {
    hide History;
  }

  lemma CheckEofStep(c: Config, s: State, step: Step)
    requires Inv(c, s) && Enabled(s, step) && (step == Advance(Reader) && s.reader.Check? && !s.reader.rerr.NoErr?)
    requires s.callbackErr.None? && s.reader.rerr.Eof?
    ensures Inv(c, Apply(c, s, step))
  {
    hide History;
  }

  lemma LockStep(c: Config, s: State, step: Step)
    requires Inv(c, s) && Enabled(s, step) && (step.Advance? && PcOf(s, step.who).Lock?)
    ensures Inv(c, Apply(c, s, step))
  {
    hide History;
  }

  lemma ReaderSnapStep(c: Config, s: State, step: Step)
    requires Inv(c, s) && Enabled(s, step) && (step == Advance(Reader) && s.reader.Snap?)
    ensures Inv(c, Apply(c, s, step))
  {
    hide History;
    HistoryCall(s.calls, s.outcomes, s.content);
  }

  lemma TickerSnapStep(c: Config, s: State, step: Step)
    requires Inv(c, s) && Enabled(s, step)
    requires step == Advance(Ticker) && s.ticker.Snap? && s.callbackErr.None? && s.content != s.lastEmitted
    ensures Inv(c, Apply(c, s, step))
  {
    hide History;
    HistoryCall(s.calls, s.outcomes, s.content);
  }

  lemma TickerSkipStep(c: Config, s: State, step: Step)
    requires Inv(c, s) && Enabled(s, step)
    requires step == Advance(Ticker) && s.ticker.Snap? && (s.callbackErr.Some? || s.content == s.lastEmitted)
    ensures Inv(c, Apply(c, s, step))
  {
    hide History;
  }

  lemma ReaderCallbackStep(c: Config, s: State, step: Step)
    requires Inv(c, s) && Enabled(s, step) && step.CallbackReturns? && step.who.Reader?
    ensures Inv(c, Apply(c, s, step))
  {
    hide LocksInv, PlacesInv, BytesInv, CallsInv, SealedInv, CloserInv, Apply;
    ReaderCallbackCalls(c, s, step);
    ReaderCallbackRest(c, s, step);
  }

  lemma ReaderCallbackCalls(c: Config, s: State, step: Step)
    requires LocksInv(s) && CallsInv(s) && Enabled(s, step) && step.CallbackReturns? && step.who.Reader?
    ensures CallsInv(Apply(c, s, step))
  {
    hide History;
    HistoryReturn(s.calls, s.outcomes, s.content, step.outcome);
  }

  lemma ReaderCallbackRest(c: Config, s: State, step: Step)
    requires Inv(c, s) && Enabled(s, step) && step.CallbackReturns? && step.who.Reader?
    ensures var s' := Apply(c, s, step);
            LocksInv(s') && PlacesInv(c, s') && BytesInv(s') && SealedInv(c, s') && CloserInv(s')
  {
    hide History, CallsInv;
  }

  lemma TickerCallbackStep(c: Config, s: State, step: Step)
    requires Inv(c, s) && Enabled(s, step) && step.CallbackReturns? && step.who.Ticker?
    ensures Inv(c, Apply(c, s, step))
  {
    hide LocksInv, PlacesInv, BytesInv, CallsInv, SealedInv, CloserInv, Apply;
    TickerCallbackCalls(c, s, step);
    TickerCallbackRest(c, s, step);
  }

  lemma TickerCallbackCalls(c: Config, s: State, step: Step)
    requires LocksInv(s) && CallsInv(s) && Enabled(s, step) && step.CallbackReturns? && step.who.Ticker?
    ensures CallsInv(Apply(c, s, step))
  {
    hide History;
    HistoryReturn(s.calls, s.outcomes, s.content, step.outcome);
  }

  lemma TickerCallbackRest(c: Config, s: State, step: Step)
    requires Inv(c, s) && Enabled(s, step) && step.CallbackReturns? && step.who.Ticker?
    ensures var s' := Apply(c, s, step);
            LocksInv(s') && PlacesInv(c, s') && BytesInv(s') && SealedInv(c, s') && CloserInv(s')
  {
    hide History, CallsInv;
  }

  lemma ReaderRecordStep(c: Config, s: State, step: Step)
    requires Inv(c, s) && Enabled(s, step) && (step == Advance(Reader) && s.reader.Record?)
    ensures Inv(c, Apply(c, s, step))
  {
    hide History;
  }

  lemma TickerRecordErrorStep(c: Config, s: State, step: Step)
    requires Inv(c, s) && Enabled(s, step) && (step == Advance(Ticker) && s.ticker.Record?)
    requires s.ticker.outcome.Error?
    ensures Inv(c, Apply(c, s, step))
  {
    hide History;
  }

  lemma TickerRecordStep(c: Config, s: State, step: Step)
    requires Inv(c, s) && Enabled(s, step) && (step == Advance(Ticker) && s.ticker.Record?)
    requires s.ticker.outcome.Okay?
    ensures Inv(c, Apply(c, s, step))
  {
    hide History;
  }

  lemma ReaderUnlockStep(c: Config, s: State, step: Step)
    requires Inv(c, s) && Enabled(s, step) && (step == Advance(Reader) && s.reader.Unlock?)
    ensures Inv(c, Apply(c, s, step))
  {
    hide History;
  }

  lemma TickerUnlockStep(c: Config, s: State, step: Step)
    requires Inv(c, s) && Enabled(s, step) && (step == Advance(Ticker) && s.ticker.Unlock?)
    ensures Inv(c, Apply(c, s, step))
  {
    hide History;
  }

  lemma ReaderCloseStep(c: Config, s: State, step: Step)
    requires Inv(c, s) && Enabled(s, step) && (step.Advance? && PcOf(s, step.who).Close?)
    requires step.who.Reader?
    ensures Inv(c, Apply(c, s, step))
  {
    hide History;
  }

  lemma TickerCloseStep(c: Config, s: State, step: Step)
    requires Inv(c, s) && Enabled(s, step) && (step.Advance? && PcOf(s, step.who).Close?)
    requires step.who.Ticker?
    ensures Inv(c, Apply(c, s, step))
  {
    hide History;
  }

  lemma ClosingStep(c: Config, s: State, step: Step)
    requires Inv(c, s) && Enabled(s, step) && (step.Advance? && PcOf(s, step.who).Closing?)
    ensures Inv(c, Apply(c, s, step))
  {
    hide History;
  }

  lemma SelectStep(c: Config, s: State, step: Step)
    requires Inv(c, s) && Enabled(s, step) && (step.TickerTick? || step.TickerStop?)
    ensures Inv(c, Apply(c, s, step))
  {
    hide History;
  }

  lemma ConsumerReadStep(c: Config, s: State, step: Step)
    requires Inv(c, s) && Enabled(s, step) && step.ConsumerRead?
    ensures Inv(c, Apply(c, s, step))
  {
    hide History;
    assert s.consumed + s.pipe[..step.n] + s.pipe[step.n..] == s.consumed + s.pipe;
  }

  lemma ConsumerEndsStep(c: Config, s: State, step: Step)
    requires Inv(c, s) && Enabled(s, step) && step.ConsumerEnds?
    ensures Inv(c, Apply(c, s, step))
  {
    hide History;
  }

  lemma InvStep(c: Config, s: State, step: Step)
    requires Inv(c, s) && Enabled(s, step)
    ensures Inv(c, Apply(c, s, step))
  {
    match step
    case SourceRead(_, _) => SourceReadStep(c, s, step);
    case CallbackReturns(who, _) =>
      if who.Reader? {
        ReaderCallbackStep(c, s, step);
      } else {
        TickerCallbackStep(c, s, step);
      }
    case TickerTick => SelectStep(c, s, step);
    case TickerStop => SelectStep(c, s, step);
    case ConsumerRead(_) => ConsumerReadStep(c, s, step);
    case ConsumerEnds => ConsumerEndsStep(c, s, step);
    case Advance(who) =>
      match PcOf(s, who)
      case Append(_, _) => AppendStep(c, s, step);
      case Write(_, _) => WriteStep(c, s, step);
      case WriteFailed => WriteFailedStep(c, s, step);
      case Check(rerr) =>
        if rerr.NoErr? {
          CheckAgainStep(c, s, step);
        } else if s.callbackErr.Some? || rerr.Failed? {
          CheckFailedStep(c, s, step);
        } else {
          CheckEofStep(c, s, step);
        }
      case Lock(_) => LockStep(c, s, step);
      case Snap(_) =>
        if who.Reader? {
          ReaderSnapStep(c, s, step);
        } else if s.callbackErr.None? && s.content != s.lastEmitted {
          TickerSnapStep(c, s, step);
        } else {
          TickerSkipStep(c, s, step);
        }
      case Record(_, outcome) =>
        if who.Reader? {
          ReaderRecordStep(c, s, step);
        } else if outcome.Error? {
          TickerRecordErrorStep(c, s, step);
        } else {
          TickerRecordStep(c, s, step);
        }
      case Unlock(_) =>
        if who.Reader? {
          ReaderUnlockStep(c, s, step);
        } else {
          TickerUnlockStep(c, s, step);
        }
      case Close(_) =>
        if who.Reader? {
          ReaderCloseStep(c, s, step);
        } else {
          TickerCloseStep(c, s, step);
        }
      case Closing(_) => ClosingStep(c, s, step);
  }

  lemma {:induction false} RunInv(c: Config, s: State, steps: seq<Step>, s': State)
    requires Inv(c, s) && Run(c, s, steps, s')
    ensures Inv(c, s')
    decreases |steps|
  {
    if steps != [] {
      InvStep(c, s, steps[0]);
      RunInv(c, Apply(c, s, steps[0]), steps[1..], s');
    }
  }

  // ----- What holds in every reachable state, whatever the interleaving -----

  ghost predicate Reachable(c: Config, s: State) {
    exists steps :: Run(c, Init(c), steps, s)
  }

  lemma ReachableInv(c: Config, s: State)
    requires Reachable(c, s)
    ensures Inv(c, s)
  {
    var steps :| Run(c, Init(c), steps, s);
    InitInv(c);
    RunInv(c, Init(c), steps, s);
  }

  /** The callback sees growing prefixes of the source, one invocation at a time, and only its last
      outcome can be an error. The consumer always has a prefix of the source. */
  lemma CallbacksSeeGrowingPrefixes(c: Config, s: State)
    requires Reachable(c, s)
    ensures Chain(s.calls) && forall i :: 0 <= i < |s.calls| ==> s.calls[i] <= s.source
    ensures |s.outcomes| <= |s.calls| <= |s.outcomes| + 1
    ensures s.outcomes != [] ==> AllOkay(s.outcomes[..|s.outcomes| - 1])
    ensures s.consumed <= s.source
  {
    ReachableInv(c, s);
    assert s.content <= s.source;
    forall i | 0 <= i < |s.calls| ensures s.calls[i] <= s.source {
      var last := |s.calls| - 1;
      assert s.calls[i] <= s.calls[last];
    }
  }

  /** Once the callback has failed it is never invoked again. */
  lemma {:induction false} NoCallAfterError(c: Config, s: State, steps: seq<Step>, s': State)
    requires Reachable(c, s) && HasError(s.outcomes) && Run(c, s, steps, s')
    ensures s'.calls == s.calls && s'.outcomes == s.outcomes
  {
    ReachableInv(c, s);
    NoCallAfterErrorInv(c, s, steps, s');
  }

  lemma NoCallStep(c: Config, s: State, step: Step)
    requires LocksInv(s) && CallsInv(s) && HasError(s.outcomes) && Enabled(s, step)
    ensures Apply(c, s, step).calls == s.calls && Apply(c, s, step).outcomes == s.outcomes
  {
    hide History, Last;
    match step
    case Advance(who) => QuietMove(c, s, who);
    case CallbackReturns(who, _) => NobodyCalling(s, who);
    case _ =>
  }

  /** A goroutine that moves on after the callback failed does not enter the callback. */
  lemma QuietMove(c: Config, s: State, who: Who)
    requires LocksInv(s) && CallsInv(s) && HasError(s.outcomes) && Enabled(s, Advance(who))
    ensures Move(c, s, who).calls == s.calls && Move(c, s, who).outcomes == s.outcomes
  {
    hide History, HasError, Last;
    if PcOf(s, who).Snap? {
      assert s.callbackErr.Some?;
    }
  }

  lemma NobodyCalling(s: State, who: Who)
    requires CallsInv(s) && HasError(s.outcomes)
    ensures !PcOf(s, who).Calling?
  {
    hide History, HasError, Last;
  }

  lemma {:induction false} NoCallAfterErrorInv(c: Config, s: State, steps: seq<Step>, s': State)
    requires Inv(c, s) && HasError(s.outcomes) && Run(c, s, steps, s')
    ensures s'.calls == s.calls && s'.outcomes == s.outcomes
    decreases |steps|
  {
    if steps != [] {
      InvStep(c, s, steps[0]);
      NoCallStep(c, s, steps[0]);
      NoCallAfterErrorInv(c, Apply(c, s, steps[0]), steps[1..], s');
    }
  }

  /** Everything was copied: the consumer has exactly the source's bytes, the source ended cleanly, and the callback
      has accepted the full content and never failed. */
  predicate Complete(c: Config, s: State) {
    && s.consumed == s.source && s.sourceEnd.Eof?
    && (c.hasCallback ==> Last(s.calls) == Some(s.source) && |s.calls| == |s.outcomes| && AllOkay(s.outcomes))
  }

  /** An io.EOF at the consumer means that everything was copied exactly when no callback has failed with io.EOF: the
      pipe hands that value on, and the consumer cannot tell it from the end of the source. */
  lemma CleanEnd(c: Config, s: State)
    requires Reachable(c, s) && s.consumerEnd == Some(IoEof)
    ensures Complete(c, s) <==> Error(IoEof) !in s.outcomes
  {
    ReachableInv(c, s);
    hide History;
    FailsLast(c, s);
    if Error(IoEof) !in s.outcomes {
      assert Sealed(s);
      assert s.content + "" == s.content;
    }
  }

  /** Only the last outcome can be an error, and without a callback there is none. */
  lemma FailsLast(c: Config, s: State)
    requires PlacesInv(c, s) && CallsInv(s)
    ensures !HasError(s.outcomes) ==> AllOkay(s.outcomes)
    ensures forall e :: Error(e) in s.outcomes ==> HasError(s.outcomes) && Last(s.outcomes) == Some(Error(e))
    ensures s.outcomes != [] ==> c.hasCallback
  {
    var n := |s.outcomes|;
    assert forall i :: 0 <= i < n - 1 ==> s.outcomes[i] == s.outcomes[..n - 1][i];
  }

  /** After the end the consumer gets nothing more; after the end of a complete copy nothing happens any more. */
  lemma {:induction false} EndStays(c: Config, s: State, steps: seq<Step>, s': State)
    requires Reachable(c, s) && s.consumerEnd.Some? && Run(c, s, steps, s')
    ensures s'.consumed == s.consumed && s'.consumerEnd == s.consumerEnd
    ensures Complete(c, s) ==> s'.calls == s.calls && s'.outcomes == s.outcomes && s'.source == s.source
  {
    ReachableInv(c, s);
    if Complete(c, s) {
      SealedByEnd(c, s);
    }
    EndStaysInv(c, s, steps, s');
  }

  lemma SealedByEnd(c: Config, s: State)
    requires Inv(c, s) && s.consumerEnd.Some? && Complete(c, s)
    ensures s.pipeClosed == Some(Okay)
  {
    hide History;
  }

  lemma {:induction false} EndStaysInv(c: Config, s: State, steps: seq<Step>, s': State)
    requires Inv(c, s) && s.consumerEnd.Some? && Run(c, s, steps, s')
    ensures s'.consumed == s.consumed && s'.consumerEnd == s.consumerEnd
    ensures s.pipeClosed == Some(Okay) ==> s'.calls == s.calls && s'.outcomes == s.outcomes && s'.source == s.source
    decreases |steps|
  {
    if steps != [] {
      InvStep(c, s, steps[0]);
      EndStep(c, s, steps[0]);
      EndStaysInv(c, Apply(c, s, steps[0]), steps[1..], s');
    }
  }

  lemma EndStep(c: Config, s: State, step: Step)
    requires Inv(c, s) && s.consumerEnd.Some? && Enabled(s, step)
    ensures var s' := Apply(c, s, step);
            && s'.consumed == s.consumed && s'.consumerEnd == s.consumerEnd && s'.pipeClosed == s.pipeClosed
            && (s.pipeClosed == Some(Okay) ==>
                s'.calls == s.calls && s'.outcomes == s.outcomes && s'.source == s.source)
  {
    hide History;
  }

  /** The consumer's verdict: unless the source failed, io.EOF exactly when nothing failed or the callback failed with
      io.EOF. When both failed it is the error of whoever closed the pipe first. Any other error is the callback's or
      the source's, never the pipe's own. */
  lemma EndVerdict(c: Config, s: State)
    requires Reachable(c, s) && s.consumerEnd.Some?
    ensures !s.sourceEnd.Failed? ==> (s.consumerEnd.value.IoEof? <==>
              (s.sourceEnd.Eof? && !HasError(s.outcomes)) || Last(s.outcomes) == Some(Error(IoEof)))
    ensures s.sourceEnd.Failed? ==>
              s.consumerEnd.value == Other(s.sourceEnd.text) || Last(s.outcomes) == Some(Error(s.consumerEnd.value))
    ensures s.consumerEnd.value.Other? ==>
              Last(s.outcomes) == Some(Error(s.consumerEnd.value)) || s.sourceEnd == Failed(s.consumerEnd.value.text)
  {
    ReachableInv(c, s);
    hide History;
  }

  // ----- A callback that fails while the reader is still reading -----

  /** The reader has not yet looked at the callback's error, and the pipe is open. */
  predicate StillReads(s: State) {
    && (s.reader.AtTop? || s.reader.Append? || s.reader.Write? || s.reader.WriteFailed? || s.reader.Check?)
    && s.pipeClosed.None?
  }

  /** Whoever closes the pipe, or has closed it, does so with that error. */
  predicate Doomed(s: State, e: Err) {
    && s.callbackErr == Some(e)
    && (s.reader.AtTop? || s.reader.Append? || s.reader.Write? || s.reader.WriteFailed? || s.reader.Check?
        || s.reader == Close(Error(e)) || s.reader == Closing(Error(e)) || s.reader.Finished?)
    && (s.pipeClosed.None? || s.pipeClosed == Some(Error(e)))
  }

  lemma DoomedStep(c: Config, s: State, step: Step, e: Err)
    requires Inv(c, s) && Doomed(s, e) && Enabled(s, step)
    ensures Doomed(Apply(c, s, step), e)
  {
    hide History, BytesInv, SealedInv;
  }

  lemma {:induction false} DoomedStays(c: Config, s: State, steps: seq<Step>, s': State, e: Err)
    requires Inv(c, s) && Doomed(s, e) && Run(c, s, steps, s')
    ensures Inv(c, s') && Doomed(s', e)
    decreases |steps|
  {
    hide Doomed, Inv, Apply, Enabled;
    if steps != [] {
      InvStep(c, s, steps[0]);
      DoomedStep(c, s, steps[0], e);
      DoomedStays(c, Apply(c, s, steps[0]), steps[1..], s', e);
    }
  }

  /** An error of the callback that is recorded while the reader has not reached its check is the consumer's end,
      whatever becomes of the source. */
  lemma RecordedErrorWins(c: Config, s: State, steps: seq<Step>, s': State)
    requires Reachable(c, s) && StillReads(s) && s.callbackErr.Some? && Run(c, s, steps, s')
    ensures s'.pipeClosed.Some? ==> s'.pipeClosed == Some(Error(s.callbackErr.value))
    ensures s'.consumerEnd.Some? ==> s'.consumerEnd == s.callbackErr
  {
    ReachableInv(c, s);
    DoomedStays(c, s, steps, s', s.callbackErr.value);
    EndIsSeen(c, s');
  }

  lemma EndIsSeen(c: Config, s: State)
    requires Inv(c, s)
    ensures s.consumerEnd.Some? ==> s.pipeClosed.Some? && s.consumerEnd.value == Seen(s.pipeClosed.value)
  {
    hide History;
  }

  // ----- A callback that fails with io.EOF -----

  lemma {:induction false} RunSnoc(c: Config, s: State, steps: seq<Step>, m: State, step: Step)
    requires Run(c, s, steps, m) && Enabled(m, step)
    ensures Run(c, s, steps + [step], Apply(c, m, step))
    decreases |steps|
  {
    if steps == [] {
      assert Run(c, Apply(c, m, step), [], Apply(c, m, step));
    } else {
      assert (steps + [step])[1..] == steps[1..] + [step];
      RunSnoc(c, Apply(c, s, steps[0]), steps[1..], m, step);
    }
  }

  lemma ReachableNext(c: Config, s: State, step: Step)
    requires Reachable(c, s) && Enabled(s, step)
    ensures Reachable(c, Apply(c, s, step))
  {
    var steps :| Run(c, Init(c), steps, s);
    RunSnoc(c, Init(c), steps, s, step);
  }

  lemma Take(s: State, step: Step) returns (s': State)
    requires Reachable(BOTH, s) && Enabled(s, step)
    ensures Reachable(BOTH, s') && s' == Apply(BOTH, s, step)
  {
    ReachableNext(BOTH, s, step);
    s' := Apply(BOTH, s, step);
  }

  const BOTH := Config(true, true)

  lemma CopyFirst(x: Bytes) returns (s: State)
    requires x != ""
    ensures Reachable(BOTH, s) && s == Init(BOTH).(content := x, pipe := x, source := x)
  {
    hide Reachable;
    NothingTaken();
    assert "" + x == x;
    s := Take(Init(BOTH), SourceRead(x, NoErr));
    s := Take(s, Advance(Reader));
    s := Take(s, Advance(Reader));
    s := Take(s, Advance(Reader));
  }

  lemma NothingTaken()
    ensures Reachable(BOTH, Init(BOTH))
  {
    assert Run(BOTH, Init(BOTH), [], Init(BOTH));
  }

  lemma TickerCalls(x: Bytes) returns (s: State)
    requires x != ""
    ensures Reachable(BOTH, s)
    ensures s == Init(BOTH).(content := x, pipe := x, source := x, calls := [x], outcomes := [Error(IoEof)],
                             ticker := Record(x, Error(IoEof)), callbackMu := Some(Ticker))
  {
    hide Reachable;
    s := CopyFirst(x);
    s := Take(s, TickerTick);
    s := Take(s, Advance(Ticker));
    s := Take(s, Advance(Ticker));
    s := Take(s, CallbackReturns(Ticker, Error(IoEof)));
    assert [] + [x] == [x];
    assert [] + [Error(IoEof)] == [Error(IoEof)];
  }

  lemma TickerCloses(x: Bytes) returns (s: State)
    requires x != ""
    ensures Reachable(BOTH, s)
    ensures s == Init(BOTH).(content := x, pipe := x, source := x, calls := [x], outcomes := [Error(IoEof)],
                             ticker := Finished, callbackErr := Some(IoEof), once := Ran, lifecycleEnd := true,
                             pipeClosed := Some(Error(IoEof)))
  {
    hide Reachable;
    s := TickerCalls(x);
    s := Take(s, Advance(Ticker));
    s := Take(s, Advance(Ticker));
    s := Take(s, Advance(Ticker));
    s := Take(s, Advance(Ticker));
  }

  /** A ticker whose callback has failed closes the pipe itself, without waiting for the reader. */
  lemma FailedTickerCloses(c: Config, s: State, e: Err)
    requires Reachable(c, s) && s.ticker.Record? && s.ticker.outcome == Error(e) && s.once.NotRun?
    ensures exists s' :: Run(c, s, [Advance(Ticker), Advance(Ticker), Advance(Ticker), Advance(Ticker)], s')
                         && s'.pipeClosed == Some(Error(e)) && s'.ticker.Finished? && s'.reader == s.reader
  {
    ReachableInv(c, s);
    var s1 := Apply(c, s, Advance(Ticker));
    var s2 := Apply(c, s1, Advance(Ticker));
    var s3 := Apply(c, s2, Advance(Ticker));
    var s4 := Apply(c, s3, Advance(Ticker));
    FourSteps(c, s, Advance(Ticker), s1, s2, s3, s4);
  }

  /** A tick reports content that was not reported yet, and nothing else. */
  lemma TickReports(c: Config, s: State)
    requires s.ticker.AtTop? && s.callbackMu.None? && s.callbackErr.None?
    ensures exists s' :: && Run(c, s, [TickerTick, Advance(Ticker), Advance(Ticker)], s')
                         && s'.calls == (if s.content != s.lastEmitted then s.calls + [s.content] else s.calls)
                         && (s'.ticker.Calling? <==> s.content != s.lastEmitted)
  {
    var s1 := Apply(c, s, TickerTick);
    var s2 := Apply(c, s1, Advance(Ticker));
    var s3 := Apply(c, s2, Advance(Ticker));
    var steps := [TickerTick, Advance(Ticker), Advance(Ticker)];
    assert steps[1..] == [Advance(Ticker), Advance(Ticker)] && steps[1..][1..] == [Advance(Ticker)];
    assert [Advance(Ticker)][1..] == [];
    assert Run(c, s3, [], s3);
    assert Run(c, s2, [Advance(Ticker)], s3);
    assert Run(c, s1, [Advance(Ticker), Advance(Ticker)], s3);
    assert Run(c, s, steps, s3);
  }

  lemma FourSteps(c: Config, s: State, step: Step, s1: State, s2: State, s3: State, s4: State)
    requires Enabled(s, step) && s1 == Apply(c, s, step) && Enabled(s1, step) && s2 == Apply(c, s1, step)
    requires Enabled(s2, step) && s3 == Apply(c, s2, step) && Enabled(s3, step) && s4 == Apply(c, s3, step)
    ensures Run(c, s, [step, step, step, step], s4)
  {
    hide Enabled, Apply;
    var one, two, three, four := [step], [step, step], [step, step, step], [step, step, step, step];
    assert four[1..] == three && three[1..] == two && two[1..] == one && one[1..] == [];
    assert Run(c, s4, [], s4);
    assert Run(c, s3, one, s4);
    assert Run(c, s2, two, s4);
    assert Run(c, s1, three, s4);
  }

  /** A chunk is copied; the ticker's callback answers it with io.EOF, which closes the pipe; the next chunk has
      nowhere to go. The consumer sees a clean end, and everything is over. */
  lemma EofLosesBytes(x: Bytes, y: Bytes) returns (s: State)
    requires x != "" && y != ""
    ensures Reachable(BOTH, s) && s.consumerEnd == Some(IoEof)
    ensures s.source == x + y && s.sourceEnd.Eof? && s.consumed == x && s.reader.Finished? && s.ticker.Finished?
  {
    hide Reachable;
    s := TickerCloses(x);
    s := Take(s, SourceRead(y, Eof));
    s := Take(s, Advance(Reader));
    s := Take(s, Advance(Reader));
    s := Take(s, Advance(Reader));
    s := Take(s, Advance(Reader));
    s := Take(s, ConsumerRead(|x|));
    assert "" + x[..|x|] == x && x[|x|..] == "";
    s := Take(s, ConsumerEnds);
  }

  /** The goroutine has a step, or waits for its source, its callback or the next tick. */
  predicate CanMove(s: State, who: Who) {
    PcOf(s, who).AtTop? || PcOf(s, who).Calling? || Enabled(s, Advance(who))
  }

  /** No deadlock: an unfinished goroutine can move, or waits for one that can. */
  lemma NotStuck(c: Config, s: State, who: Who)
    requires Reachable(c, s) && !PcOf(s, who).Finished?
    ensures CanMove(s, who) || CanMove(s, if who.Reader? then Ticker else Reader)
  {
    ReachableInv(c, s);
    match s.callbackMu {
      case None =>
      case Some(Reader) =>
      case Some(Ticker) =>
    }
    match s.once {
      case NotRun =>
      case Running(Reader) =>
      case Running(Ticker) =>
      case Ran =>
    }
  }

  function Rank(pc: Pc): nat {
    match pc
    case AtTop => 13
    case Append(_, _) => 12
    case Write(_, _) => 11
    case WriteFailed => 10
    case Check(_) => 9
    case Lock(_) => 8
    case Snap(_) => 7
    case Calling(_) => 6
    case Record(_, _) => 5
    case Unlock(_) => 4
    case Close(_) => 3
    case Closing(_) => 2
    case Finished => 0
  }

  /** Once the source has ended, each step of the reader brings it nearer to its end and no other step sets it back. */
  lemma ReaderWindsDown(c: Config, s: State, step: Step)
    requires Reachable(c, s) && Enabled(s, step) && !s.sourceEnd.NoErr?
    ensures var s' := Apply(c, s, step);
            && s'.sourceEnd == s.sourceEnd
            && (if step == Advance(Reader) || (step.CallbackReturns? && step.who.Reader?)
                then Rank(s'.reader) < Rank(s.reader) else s'.reader == s.reader)
  {
    ReachableInv(c, s);
    WindsDownStep(c, s, step);
  }

  lemma WindsDownStep(c: Config, s: State, step: Step)
    requires PlacesInv(c, s) && Enabled(s, step) && !s.sourceEnd.NoErr?
    ensures var s' := Apply(c, s, step);
            && s'.sourceEnd == s.sourceEnd
            && (if step == Advance(Reader) || (step.CallbackReturns? && step.who.Reader?)
                then Rank(s'.reader) < Rank(s.reader) else s'.reader == s.reader)
  {
    hide Move, HoldsLock;
    if step == Advance(Reader) {
      assert s.reader.Check? ==> s.reader.rerr == s.sourceEnd;
      ReaderMoves(c, s);
    } else if step == Advance(Ticker) {
      TickerMoves(c, s);
    }
  }

  lemma ReaderMoves(c: Config, s: State)
    requires Enabled(s, Advance(Reader)) && !s.sourceEnd.NoErr? && (s.reader.Check? ==> s.reader.rerr == s.sourceEnd)
    ensures Move(c, s, Reader).sourceEnd == s.sourceEnd && Rank(Move(c, s, Reader).reader) < Rank(s.reader)
  {
  }

  lemma TickerMoves(c: Config, s: State)
    requires Enabled(s, Advance(Ticker))
    ensures Move(c, s, Ticker).sourceEnd == s.sourceEnd && Move(c, s, Ticker).reader == s.reader
  {
  }

  /** The pipe is closed once: whoever comes second changes nothing. */
  lemma ClosedOnce(c: Config, s: State, step: Step)
    requires Reachable(c, s) && Enabled(s, step) && s.pipeClosed.Some?
    ensures Apply(c, s, step).pipeClosed == s.pipeClosed && |Apply(c, s, step).pipe| <= |s.pipe|
  {
    ReachableInv(c, s);
  }
}

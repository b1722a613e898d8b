/** One generation run from the first event to the stored message
    (backend/internal/chat/generation_streaming.go:37-221 and
    backend/internal/chat/generation_active_run.go:28-31, 159-168).

    The run's `emit` is `run.publish`, which never reports an error, so the
    branches on `emitErr` are never taken. */
module AssistantStream {
  import opened Text
  import opened Events
  import opened ReasoningParser
  import opened ReasoningStream

  datatype StreamError = Canceled(text: string) | Recoverable(text: string) | Fatal(text: string)

  /** What one call of the model client does: its callbacks, then its result. */
  datatype ModelCall = ModelCall(
    deltas: seq<StreamDelta>,
    finishReason: string,
    resultContent: string,
    error: Option<StreamError>)

  function ShouldAutoContinue(call: ModelCall): bool {
    if call.finishReason == "length" then true
    else if call.error == None || call.resultContent == "" then false
    else if call.error.value.Canceled? then false
    else call.error.value.Recoverable?
  }

  /** A call is followed by a second one if it ran into the token limit, or broke off in a way
      that can be retried after it had produced an answer. */
  ghost predicate BreaksOff(call: ModelCall) {
    || call.finishReason == "length"
    || (call.resultContent != "" && exists text :: call.error == Some(Recoverable(text)))
  }

  lemma ContinuesExactly(call: ModelCall)
    ensures ShouldAutoContinue(call) <==> BreaksOff(call)
  {
    if ShouldAutoContinue(call) && call.finishReason != "length" {
      assert call.error == Some(Recoverable(call.error.value.text));
    }
  }

  // ------------------------------------------------------- the log's grammar

  /** How far a log has come. */
  datatype Phase = Fresh | Open(reasoning: bool) | ReasoningClosed | Finished | Malformed

  predicate IsTerminal(kind: EventKind) {
    kind == Done || kind == Error || kind == Cancelled
  }

  function Advance(phase: Phase, kind: EventKind): Phase {
    match phase
    case Fresh => if kind == MessageStart then Open(false) else Malformed
    case Open(false) =>
      if kind == Delta then phase
      else if kind == ReasoningStart then Open(true)
      else if IsTerminal(kind) then Finished
      else Malformed
    case Open(true) =>
      if kind == Delta || kind == ReasoningDelta then phase
      else if kind == ReasoningDone then ReasoningClosed
      else Malformed
    case ReasoningClosed => if IsTerminal(kind) then Finished else Malformed
    case Finished => Malformed
    case Malformed => Malformed
  }

  function PhaseOf(log: seq<StreamEvent>): Phase {
    if log == [] then Fresh
    else Advance(PhaseOf(log[..|log| - 1]), log[|log| - 1].kind)
  }

  /** All text of one kind of event, in order. */
  function TextOf(log: seq<StreamEvent>, kind: EventKind): string {
    if log == [] then ""
    else
      var last := log[|log| - 1];
      TextOf(log[..|log| - 1], kind) + (if last.kind == kind then last.content else "")
  }

  lemma LogStep(log: seq<StreamEvent>, event: StreamEvent, kind: EventKind)
    ensures PhaseOf(log + [event]) == Advance(PhaseOf(log), event.kind)
    ensures TextOf(log + [event], kind)
      == TextOf(log, kind) + (if event.kind == kind then event.content else "")
  {
    assert (log + [event])[..|log|] == log;
  }

  // ------------------------------------------------ the log follows the buffer

  /** While text streams in, the log spells the buffer's two texts. */
  ghost predicate InStep(e: Effect) {
    && PhaseOf(e.events) == Open(e.b.reasoningStarted)
    && !e.b.reasoningDone
    && TextOf(e.events, Delta) == e.b.content
    && TextOf(e.events, ReasoningDelta) == e.b.reasoningContent
  }

  lemma ReasoningInStep(e: Effect, chunk: string)
    requires InStep(e)
    ensures InStep(AppendedReasoning(e, chunk))
  {
    if chunk != "" {
      var log := if e.b.reasoningStarted then e.events else e.events + [Plain(ReasoningStart, "")];
      assert PhaseOf(log) == Open(true) && TextOf(log, Delta) == e.b.content
        && TextOf(log, ReasoningDelta) == e.b.reasoningContent by {
        LogStep(e.events, Plain(ReasoningStart, ""), Delta);
        LogStep(e.events, Plain(ReasoningStart, ""), ReasoningDelta);
      }
      LogStep(log, Plain(ReasoningDelta, chunk), Delta);
      LogStep(log, Plain(ReasoningDelta, chunk), ReasoningDelta);
      hide PhaseOf, TextOf;
      assert e.events + [] == e.events;
    }
  }

  lemma ContentInStep(e: Effect, chunk: string)
    requires InStep(e)
    ensures InStep(AppendedContent(e, chunk))
  {
    if chunk != "" {
      LogStep(e.events, Plain(Delta, chunk), Delta);
      LogStep(e.events, Plain(Delta, chunk), ReasoningDelta);
    }
  }

  lemma AppliedInStep(e: Effect, d: StreamDelta)
    requires InStep(e)
    ensures InStep(Applied(e, d))
  {
    hide Split, AppendedReasoning, AppendedContent, DiffFromPrefix, PhaseOf, TextOf;
    ReasoningInStep(e, d.reasoning);
    var e1 := AppendedReasoning(e, d.reasoning);
    if d.content != "" {
      var raw := e1.b.raw + d.content;
      var p := Split(raw);
      var e2 := e1.(b := e1.b.(raw := raw));
      var newReasoning := DiffFromPrefix(p.reasoning, e2.b.parsedReasoning);
      ReasoningInStep(e2.(b := e2.b.(parsedReasoning := p.reasoning)), newReasoning);
      var e3 := if newReasoning == "" then e2
                else AppendedReasoning(e2.(b := e2.b.(parsedReasoning := p.reasoning)), newReasoning);
      ContentInStep(e3.(b := e3.b.(parsedContent := p.content)), DiffFromPrefix(p.content, e3.b.parsedContent));
    }
  }

  /** Feeding a list of deltas, on top of what is already there. */
  function FedFrom(e: Effect, deltas: seq<StreamDelta>): Effect {
    if deltas == [] then e
    else Applied(FedFrom(e, deltas[..|deltas| - 1]), deltas[|deltas| - 1])
  }

  lemma {:induction false} FedInStep(e: Effect, deltas: seq<StreamDelta>)
    requires InStep(e)
    ensures InStep(FedFrom(e, deltas))
  {
    hide Applied, InStep;
    if deltas == [] {
    } else {
      FedInStep(e, deltas[..|deltas| - 1]);
      AppliedInStep(FedFrom(e, deltas[..|deltas| - 1]), deltas[|deltas| - 1]);
    }
  }

  /** Two calls of the model client on one buffer are one longer call. */
  lemma {:induction false} FedTwice(e: Effect, first: seq<StreamDelta>, second: seq<StreamDelta>)
    ensures FedFrom(FedFrom(e, first), second) == FedFrom(e, first + second)
  {
    hide Applied;
    if second == [] {
      assert first + second == first;
    } else {
      var n := |second| - 1;
      FedTwice(e, first, second[..n]);
      assert (first + second)[..|first| + n] == first + second[..n];
      assert (first + second)[|first| + n] == second[n];
    }
  }

  lemma ReasoningBehind(log: seq<StreamEvent>, e: Effect, chunk: string)
    ensures AppendedReasoning(Effect(e.b, log + e.events), chunk)
      == Effect(AppendedReasoning(e, chunk).b, log + AppendedReasoning(e, chunk).events)
  {
    var start := if e.b.reasoningStarted then [] else [Plain(ReasoningStart, "")];
    assert log + e.events + start + [Plain(ReasoningDelta, chunk)]
        == log + (e.events + start + [Plain(ReasoningDelta, chunk)]);
  }

  lemma ContentBehind(log: seq<StreamEvent>, e: Effect, chunk: string)
    ensures AppendedContent(Effect(e.b, log + e.events), chunk)
      == Effect(AppendedContent(e, chunk).b, log + AppendedContent(e, chunk).events)
  {
    assert log + e.events + [Plain(Delta, chunk)] == log + (e.events + [Plain(Delta, chunk)]);
  }

  lemma AppliedBehind(log: seq<StreamEvent>, e: Effect, d: StreamDelta)
    ensures Applied(Effect(e.b, log + e.events), d)
      == Effect(Applied(e, d).b, log + Applied(e, d).events)
  {
    hide Split, AppendedReasoning, AppendedContent, DiffFromPrefix;
    ReasoningBehind(log, e, d.reasoning);
    var e1 := AppendedReasoning(e, d.reasoning);
    if d.content != "" {
      var raw := e1.b.raw + d.content;
      var p := Split(raw);
      var e2 := e1.(b := e1.b.(raw := raw));
      var newReasoning := DiffFromPrefix(p.reasoning, e2.b.parsedReasoning);
      ReasoningBehind(log, e2.(b := e2.b.(parsedReasoning := p.reasoning)), newReasoning);
      var e3 := if newReasoning == "" then e2
                else AppendedReasoning(e2.(b := e2.b.(parsedReasoning := p.reasoning)), newReasoning);
      ContentBehind(log, e3.(b := e3.b.(parsedContent := p.content)), DiffFromPrefix(p.content, e3.b.parsedContent));
    }
  }

  /** The buffer of the run is the buffer of the streaming theorems: where the log
      starts does not matter to it. */
  lemma {:induction false} FedFromEmpty(log: seq<StreamEvent>, deltas: seq<StreamDelta>)
    ensures FedFrom(Effect(EMPTY_BUFFER, log), deltas)
      == Effect(Fed(deltas).b, log + Fed(deltas).events)
  {
    if deltas == [] {
      assert log + [] == log;
    } else {
      hide Applied;
      FedFromEmpty(log, deltas[..|deltas| - 1]);
      AppliedBehind(log, Fed(deltas[..|deltas| - 1]), deltas[|deltas| - 1]);
    }
  }

  // ------------------------------------------------------------- the run

  /** The message row and the in-memory message of the run. */
  class AssistantMessage {
    var view: MessageView
    var stored: Option<MessageView>

    constructor ()
      ensures view == MessageView("", "", Streaming) && stored == None
    {
      view, stored := MessageView("", "", Streaming), None;
    }

    /** `finalizeAssistantMessage`; `writes` tells whether the update succeeds. */
    method Finalize(final: MessageView, writes: bool) returns (ok: bool)
      modifies this
      ensures ok == writes && view == final
      ensures stored == if writes then Some(final) else old(stored)
    {
      view := final;
      if writes {
        stored := Some(final);
      }
      ok := writes;
    }
  }

  function StartEvent(view: MessageView): StreamEvent {
    StreamEvent(MessageStart, 0, "", "", Some(view))
  }

  /** What the run's log and its stored message have to do with each other. */
  ghost predicate WireAgrees(log: seq<StreamEvent>, final: MessageView, stored: Option<MessageView>) {
    && PhaseOf(log) == Finished
    && TextOf(log, Delta) == final.content
    && TextOf(log, ReasoningDelta) == final.reasoning
    && log != []
    && (var last := log[|log| - 1];
        if stored.Some? then
          && stored.value == final
          && last.message == Some(final)
          && (last.kind == Done <==> final.status == Completed)
          && (last.kind == Cancelled <==> final.status == CancelledStatus)
          && (last.kind == Error <==> final.status == Failed)
        else last.kind == Error && last.message == None)
  }

  lemma EmptyDelta(e: Effect)
    ensures Applied(e, StreamDelta("", "")) == e
  {
  }

  method StreamCall(buffer: AssistantResponseBuffer, emit: EventSink, call: ModelCall)
    modifies buffer, emit
    ensures Effect(buffer.State(), emit.events) == FedFrom(Effect(old(buffer.State()), old(emit.events)), call.deltas)
  {
    hide Applied;
    ghost var start := Effect(buffer.State(), emit.events);
    for i := 0 to |call.deltas|
      invariant Effect(buffer.State(), emit.events) == FedFrom(start, call.deltas[..i])
    {
      var delta := call.deltas[i];
      assert call.deltas[..i + 1][..i] == call.deltas[..i];
      EmptyDelta(Effect(buffer.State(), emit.events));
      if delta.content == "" && delta.reasoning == "" {
        assert delta == StreamDelta("", "");
        continue;
      }
      buffer.ApplyDelta(delta, emit);
    }
    assert call.deltas[..|call.deltas|] == call.deltas;
  }

  /** The deltas a run feeds: those of the first call, and of the second if it is made. */
  function RunDeltas(first: ModelCall, second: ModelCall): seq<StreamDelta> {
    if ShouldAutoContinue(first) then first.deltas + second.deltas else first.deltas
  }

  /** The error the run ends with: the second call replaces the first. */
  function RunError(first: ModelCall, second: ModelCall): Option<StreamError> {
    if ShouldAutoContinue(first) then second.error else first.error
  }

  lemma CallsFed(first: ModelCall, second: ModelCall)
    ensures RunDeltas(first, second) == if BreaksOff(first) then first.deltas + second.deltas else first.deltas
    ensures RunError(first, second) == if BreaksOff(first) then second.error else first.error
  {
    ContinuesExactly(first);
  }

  function FinalStatus(error: Option<StreamError>, reason0: CancelReason, reason1: CancelReason): Status {
    if error == None then Completed
    else if error.value.Canceled? && (reason0 == ByUser || reason1 == Detached) then CancelledStatus
    else Failed
  }

  function FinalView(first: ModelCall, second: ModelCall, reason0: CancelReason, reason1: CancelReason): MessageView {
    var b := Fed(RunDeltas(first, second)).b;
    MessageView(b.content, b.reasoningContent, FinalStatus(RunError(first, second), reason0, reason1))
  }

  function ErrorText(error: Option<StreamError>): string {
    if error == None then "" else error.value.text
  }

  /** How a run ends: what its last event and the stored status say of the error, if any, and
      of whether it was stopped. */
  ghost predicate EndsAs(error: Option<StreamError>, stopped: bool, status: Status, last: StreamEvent) {
    match error
    case None => status == Completed && last.kind == Done && last.error == ""
    case Some(e) =>
      && last.error == e.text
      && (if e.Canceled? && stopped then status == CancelledStatus && last.kind == Cancelled
          else status == Failed && last.kind == Error)
  }

  /** The end of a run of one or two calls, by the calls themselves. */
  ghost predicate RunEnds(first: ModelCall, second: ModelCall, stopped: bool, stored: MessageView, last: StreamEvent) {
    var deltas := if BreaksOff(first) then first.deltas + second.deltas else first.deltas;
    var error := if BreaksOff(first) then second.error else first.error;
    && stored.content == Fed(deltas).b.content && stored.reasoning == Fed(deltas).b.reasoningContent
    && EndsAs(error, stopped, stored.status, last) && last.message == Some(stored)
  }

  /** The log right before the terminal event. */
  ghost predicate ReadyToEnd(log: seq<StreamEvent>, final: MessageView) {
    && (PhaseOf(log) == Open(false) || PhaseOf(log) == ReasoningClosed)
    && TextOf(log, Delta) == final.content
    && TextOf(log, ReasoningDelta) == final.reasoning
    && log != []
  }

  lemma EndsWell(log: seq<StreamEvent>, final: MessageView, event: StreamEvent)
    requires ReadyToEnd(log, final) && IsTerminal(event.kind)
    ensures PhaseOf(log + [event]) == Finished
    ensures TextOf(log + [event], Delta) == final.content
    ensures TextOf(log + [event], ReasoningDelta) == final.reasoning
  {
    LogStep(log, event, Delta);
    LogStep(log, event, ReasoningDelta);
  }

  method CompleteFailedAssistantStream(content: string, reasoning: string, streamErr: StreamError,
                                       reason0: CancelReason, reason1: CancelReason,
                                       writes: bool, message: AssistantMessage, run: EventSink)
      returns (failure: Option<string>)
    requires message.stored == None
    requires ReadyToEnd(run.events, MessageView(content, reasoning, Failed))
    modifies message, run
    ensures var final := MessageView(content, reasoning, FinalStatus(Some(streamErr), reason0, reason1));
      if writes then failure == None && message.stored == Some(final) && WireAgrees(run.events, final, message.stored)
      else failure.Some? && message.stored == None && ReadyToEnd(run.events, final)
    ensures writes ==>
      EndsAs(Some(streamErr), reason0 == ByUser || reason1 == Detached,
             message.stored.value.status, run.events[|run.events| - 1])
    ensures writes ==> run.events[|run.events| - 1].error == streamErr.text
    ensures old(run.events) <= run.events
  {
    hide PhaseOf, TextOf;
    var status, kind := Failed, Error;
    if streamErr.Canceled? && (reason0 == ByUser || reason1 == Detached) {
      status, kind := CancelledStatus, Cancelled;
    }
    var final := MessageView(content, reasoning, status);
    var ok := message.Finalize(final, writes);
    if !ok {
      return Some("finalize assistant message");
    }
    var event := StreamEvent(kind, 0, "", streamErr.text, Some(message.view));
    EndsWell(run.events, final, event);
    run.Emit(event);
    return None;
  }

  /** `streamAssistantResponse`, and `continueAssistantResponse` when it is due. */
  method StreamCalls(buffer: AssistantResponseBuffer, run: EventSink, first: ModelCall, second: ModelCall)
      returns (streamErr: Option<StreamError>)
    modifies buffer, run
    ensures streamErr == RunError(first, second)
    ensures Effect(buffer.State(), run.events)
      == FedFrom(Effect(old(buffer.State()), old(run.events)), RunDeltas(first, second))
  {
    hide FedFrom;
    ghost var start := Effect(buffer.State(), run.events);
    StreamCall(buffer, run, first);
    streamErr := first.error;
    if ShouldAutoContinue(first) {
      StreamCall(buffer, run, second);
      streamErr := second.error;
      FedTwice(start, first.deltas, second.deltas);
    }
  }

  lemma FinishInStep(e: Effect)
    requires InStep(e)
    ensures var f := FinishedReasoning(e);
      && f.b.content == e.b.content && f.b.reasoningContent == e.b.reasoningContent
      && ReadyToEnd(f.events, MessageView(f.b.content, f.b.reasoningContent, Streaming))
  {
    LogStep(e.events, Plain(ReasoningDone, ""), Delta);
    LogStep(e.events, Plain(ReasoningDone, ""), ReasoningDelta);
  }

  lemma NothingLogged()
    ensures PhaseOf([]) == Fresh && TextOf([], Delta) == "" && TextOf([], ReasoningDelta) == ""
  {
  }

  lemma FreshLog(log: seq<StreamEvent>)
    requires |log| == 1 && log[0].kind == MessageStart
    ensures InStep(Effect(EMPTY_BUFFER, log))
  {
    hide PhaseOf, TextOf;
    LogStep([], log[0], Delta);
    LogStep([], log[0], ReasoningDelta);
    assert [] + [log[0]] == log;
    NothingLogged();
  }

  /** The log when all text has come in and the reasoning is closed. */
  lemma ReadyAfter(log: seq<StreamEvent>, deltas: seq<StreamDelta>, status: Status)
    requires |log| == 1 && log[0].kind == MessageStart
    ensures var f := FinishedReasoning(FedFrom(Effect(EMPTY_BUFFER, log), deltas));
      && f.b.content == Fed(deltas).b.content && f.b.reasoningContent == Fed(deltas).b.reasoningContent
      && ReadyToEnd(f.events, MessageView(f.b.content, f.b.reasoningContent, status))
      && log <= f.events
  {
    var start := Effect(EMPTY_BUFFER, log);
    FreshLog(log);
    FedInStep(start, deltas);
    FedFromEmpty(log, deltas);
    FinishInStep(FedFrom(start, deltas));
    hide Fed, FedFrom, InStep, PhaseOf, TextOf;
  }

  /** The end of `streamIntoAssistantMessage` when no error came. */
  method CompleteAssistantStream(content: string, reasoning: string, writes: bool,
                                 message: AssistantMessage, run: EventSink)
      returns (failure: Option<string>)
    requires message.stored == None
    requires ReadyToEnd(run.events, MessageView(content, reasoning, Completed))
    modifies message, run
    ensures var final := MessageView(content, reasoning, Completed);
      if writes then failure == None && message.stored == Some(final) && WireAgrees(run.events, final, message.stored)
      else failure.Some? && message.stored == None && ReadyToEnd(run.events, final)
    ensures writes ==> run.events[|run.events| - 1].error == ""
    ensures old(run.events) <= run.events
  {
    hide PhaseOf, TextOf;
    var final := MessageView(content, reasoning, Completed);
    var ok := message.Finalize(final, writes);
    if !ok {
      return Some("complete assistant message");
    }
    var event := StreamEvent(Done, 0, "", "", Some(message.view));
    EndsWell(run.events, final, event);
    run.Emit(event);
    return None;
  }

  lemma NoErrorCompletes(reason0: CancelReason, reason1: CancelReason)
    ensures FinalStatus(None, reason0, reason1) == Completed
  {
  }

  method StreamIntoAssistantMessage(first: ModelCall, second: ModelCall, reason0: CancelReason, reason1: CancelReason,
                                    writes: bool, message: AssistantMessage, run: EventSink)
      returns (failure: Option<string>)
    requires message.stored == None && run.events == []
    modifies message, run
    ensures failure.Some? <==> !writes
    ensures message.stored == if writes then Some(FinalView(first, second, reason0, reason1)) else None
    ensures writes ==> WireAgrees(run.events, FinalView(first, second, reason0, reason1), message.stored)
    ensures !writes ==> ReadyToEnd(run.events, FinalView(first, second, reason0, reason1))
    ensures run.events != [] && run.events[0] == StartEvent(old(message.view))
    ensures writes ==> run.events[|run.events| - 1].error == ErrorText(RunError(first, second))
  {
    hide EndsAs, WireAgrees, PhaseOf, TextOf, ShouldAutoContinue, IsTerminal, FinalStatus;
    hide FedFrom, Fed, RunDeltas, FinishedReasoning, ReadyToEnd;
    NoErrorCompletes(reason0, reason1);
    run.Emit(StartEvent(message.view));
    var buffer := new AssistantResponseBuffer();
    ghost var start := run.events;
    var streamErr := StreamCalls(buffer, run, first, second);
    buffer.FinishReasoning(run);
    var content, reasoning := buffer.content, buffer.reasoningContent;
    ghost var final := FinalView(first, second, reason0, reason1);
    ReadyAfter(start, RunDeltas(first, second), final.status);

    if streamErr.Some? {
      ReadyAfter(start, RunDeltas(first, second), Failed);
      failure := CompleteFailedAssistantStream(
        content, reasoning, streamErr.value, reason0, reason1, writes, message, run);
      return;
    }

    failure := CompleteAssistantStream(content, reasoning, writes, message, run);
  }

  lemma RunEndsWhen(first: ModelCall, second: ModelCall, reason0: CancelReason, reason1: CancelReason,
                    log: seq<StreamEvent>)
    requires var final := FinalView(first, second, reason0, reason1); WireAgrees(log, final, Some(final))
    requires log[|log| - 1].error == ErrorText(RunError(first, second))
    ensures RunEnds(first, second, reason0 == ByUser || reason1 == Detached,
                    FinalView(first, second, reason0, reason1), log[|log| - 1])
  {
    CallsFed(first, second);
    hide PhaseOf, TextOf, Fed, BreaksOff;
  }

  /** `streamIntoAssistantMessage` with `publishActiveRunError`.  `reason0` and `reason1` are
      the two reads of the cancel reason; `writes` tells whether the final update succeeds. */
  method RunAssistant(first: ModelCall, second: ModelCall, reason0: CancelReason, reason1: CancelReason,
                      writes: bool, message: AssistantMessage, run: EventSink)
    requires message.stored == None && run.events == []
    modifies message, run
    ensures message.stored == if writes then Some(FinalView(first, second, reason0, reason1)) else None
    ensures WireAgrees(run.events, FinalView(first, second, reason0, reason1), message.stored)
    ensures run.events[0].kind == MessageStart && run.events[0].message == Some(old(message.view))
    ensures writes ==>
      RunEnds(first, second, reason0 == ByUser || reason1 == Detached,
              message.stored.value, run.events[|run.events| - 1])
  {
    hide RunEnds, FinalView, EndsAs, RunError;
    var failure := StreamIntoAssistantMessage(first, second, reason0, reason1, writes, message, run);
    if failure.Some? {
      ghost var before := run.events;
      var event := StreamEvent(Error, 0, "", failure.value, None);
      run.Emit(event);
      LogStep(before, event, Delta);
      LogStep(before, event, ReasoningDelta);
    } else {
      RunEndsWhen(first, second, reason0, reason1, run.events);
    }
  }

  // --------------------------------------------- what the grammar says of a log

  ghost predicate Has(log: seq<StreamEvent>, kind: EventKind) {
    exists i :: 0 <= i < |log| && log[i].kind == kind
  }

  /** The order of events, phase by phase. */
  ghost predicate Ordered(log: seq<StreamEvent>, phase: Phase) {
    && (log != [] ==> log[0].kind == MessageStart)
    && (forall i :: 0 < i < |log| ==> log[i].kind != MessageStart)
    && (forall i, j :: 0 <= i < j < |log| && log[i].kind == ReasoningStart ==> log[j].kind != ReasoningStart)
    && (forall j :: 0 <= j < |log| && log[j].kind == ReasoningDelta ==>
          exists i :: 0 <= i < j && log[i].kind == ReasoningStart)
    && (forall i :: 0 <= i < |log| && IsTerminal(log[i].kind) ==> phase == Finished && i == |log| - 1)
    && (Has(log, ReasoningStart) <==> (phase == Open(true) || Has(log, ReasoningDone)))
    && (phase == Finished ==> log != [] && IsTerminal(log[|log| - 1].kind))
    && (phase == Fresh ==> log == [])
    && (phase == ReasoningClosed ==> Has(log, ReasoningDone))
    && (phase.Open? && !phase.reasoning ==> !Has(log, ReasoningStart))
    && (phase.Open? ==> !Has(log, ReasoningDone))
    && (phase.Open? || phase.ReasoningClosed? || phase.Finished? ==> log != [])
  }

  lemma OrderedStep(log: seq<StreamEvent>, event: StreamEvent)
    requires PhaseOf(log) != Malformed && Advance(PhaseOf(log), event.kind) != Malformed
    requires Ordered(log, PhaseOf(log))
    ensures Ordered(log + [event], Advance(PhaseOf(log), event.kind))
  {
    hide PhaseOf;
    var phase, next := PhaseOf(log), log + [event];
    forall kind | Has(log, kind) ensures Has(next, kind) {
      var i :| 0 <= i < |log| && log[i].kind == kind;
      assert next[i].kind == kind;
    }
    forall kind | Has(next, kind) && kind != event.kind ensures Has(log, kind) {
      var i :| 0 <= i < |next| && next[i].kind == kind;
      assert log[i].kind == kind;
    }
    assert next[|log|].kind == event.kind;
  }

  /** A log that follows the grammar starts the message once, starts reasoning at most
      once and before any reasoning text, closes reasoning exactly when it started it,
      and has exactly one terminal event, which is its last. */
  lemma {:induction false} GrammarOrders(log: seq<StreamEvent>)
    requires PhaseOf(log) != Malformed
    ensures Ordered(log, PhaseOf(log))
  {
    if log == [] {
    } else {
      var init, n := log[..|log| - 1], |log| - 1;
      GrammarOrders(init);
      OrderedStep(init, log[n]);
      assert init + [log[n]] == log;
    }
  }
}

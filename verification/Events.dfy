/** The events of a generation run (backend/internal/chat/service.go:72-83). */
module Events {
  import opened Text

  datatype EventKind =
    | MessageStart
    | ReasoningStart
    | ReasoningDelta
    | Delta
    | ReasoningDone
    | Done
    | Error
    | Cancelled

  datatype Status = Streaming | Completed | Failed | CancelledStatus

  /** Why a run was cancelled, if it was. */
  datatype CancelReason = NoReason | ByUser | Detached

  /** The fields of a message that a run writes and reports. */
  datatype MessageView = MessageView(content: string, reasoning: string, status: Status)

  datatype StreamEvent = StreamEvent(
    kind: EventKind,
    seqNo: int,
    content: string,
    error: string,
    message: Option<MessageView>)

  function Plain(kind: EventKind, content: string): StreamEvent {
    StreamEvent(kind, 0, content, "", None)
  }

  /** Where a run's events go; stands for the `emit` callback. */
  class EventSink {
    var events: seq<StreamEvent>

    constructor ()
      ensures events == []
    {
      events := [];
    }

    method Emit(event: StreamEvent)
      modifies this
      ensures events == old(events) + [event]
    {
      events := events + [event];
    }
  }
}

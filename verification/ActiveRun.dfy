/** One generation run that subscribers can leave and resume
    (backend/internal/chat/active_run.go, and scheduleDetachCancellation in
    backend/internal/chat/generation_active_run.go:143-157).

    Every method of the source holds the run's mutex from its first to its last
    statement, so each is one atomic step. */
module ActiveRuns {
  import opened Text
  import opened Events

  const BUFFER_LIMIT: nat := 512
  const CHANNEL_SIZE: nat := 128

  /** A bounded channel: all that was ever sent, how much of it was received, and
      whether it is closed.  `start` is how many events the run had published when
      the channel was made. */
  datatype Channel = Channel(start: nat, sent: seq<StreamEvent>, taken: nat, closed: bool) {
    function Queued(): int { |sent| - taken }
  }

  /** The fields of a run, with the full log of what it ever published and the
      number of times `done` was closed.  Channels outlive their entry in
      `subscribers`: a handler goes on draining a closed channel. */
  datatype RunState = RunState(
    log: seq<StreamEvent>,
    nextSeq: nat,
    events: seq<StreamEvent>,
    channels: map<nat, Channel>,
    subscribers: set<nat>,
    nextSubscriber: nat,
    finished: bool,
    cancelReason: CancelReason,
    detachTimer: bool,
    doneClosed: nat)

  const NEW_RUN := RunState([], 0, [], map[], {}, 0, false, NoReason, false, 0)

  /** The last `n` elements, or all of them. */
  function LastOf<T>(s: seq<T>, n: nat): seq<T> {
    if |s| <= n then s else s[|s| - n..]
  }

  function Replayed(events: seq<StreamEvent>, afterSeq: int): seq<StreamEvent> {
    if events == [] then []
    else
      var last := events[|events| - 1];
      Replayed(events[..|events| - 1], afterSeq) + (if last.seqNo > afterSeq then [last] else [])
  }

  /** The channel that `subscribe` registers, if the run is not over. */
  function SubscribedId(s: RunState): Option<nat> {
    if s.finished then None else Some(s.nextSubscriber)
  }

  function Subscribed(s: RunState): RunState {
    if s.finished then s.(detachTimer := false)
    else s.(
      detachTimer := false,
      channels := s.channels[s.nextSubscriber := Channel(s.nextSeq, [], 0, false)],
      subscribers := s.subscribers + {s.nextSubscriber},
      nextSubscriber := s.nextSubscriber + 1)
  }

  function Closed(s: RunState, id: nat): RunState
    requires id in s.channels
  {
    s.(channels := s.channels[id := s.channels[id].(closed := true)], subscribers := s.subscribers - {id})
  }

  function Unsubscribed(s: RunState, id: nat): RunState {
    if id in s.subscribers && id in s.channels then Closed(s, id) else s
  }

  /** Delivery to one channel: queued if there is room, else the channel is dropped. */
  function Delivered(c: Channel, event: StreamEvent): Channel {
    if c.Queued() < CHANNEL_SIZE then c.(sent := c.sent + [event]) else c.(closed := true)
  }

  function DeliveredAll(channels: map<nat, Channel>, subscribers: set<nat>, event: StreamEvent): map<nat, Channel> {
    map id | id in channels :: if id in subscribers then Delivered(channels[id], event) else channels[id]
  }

  /** The subscribers whose channel is not full. */
  function WithRoom(channels: map<nat, Channel>, subscribers: set<nat>): set<nat> {
    set id | id in subscribers && id in channels && channels[id].Queued() < CHANNEL_SIZE
  }

  function Published(s: RunState, event: StreamEvent): RunState {
    if s.finished then s
    else
      var e := event.(seqNo := s.nextSeq + 1);
      s.(
        log := s.log + [e],
        nextSeq := s.nextSeq + 1,
        events := LastOf(s.events + [e], BUFFER_LIMIT),
        channels := DeliveredAll(s.channels, s.subscribers, e),
        subscribers := WithRoom(s.channels, s.subscribers))
  }

  function ClosedAll(channels: map<nat, Channel>, subscribers: set<nat>): map<nat, Channel> {
    map id | id in channels :: if id in subscribers then channels[id].(closed := true) else channels[id]
  }

  function FinishedRun(s: RunState): RunState {
    if s.finished then s
    else s.(
      finished := true,
      detachTimer := false,
      channels := ClosedAll(s.channels, s.subscribers),
      subscribers := {},
      doneClosed := s.doneClosed + 1)
  }

  function CancelReasonSet(s: RunState, reason: CancelReason): RunState {
    if s.cancelReason == NoReason then s.(cancelReason := reason) else s
  }

  function DetachScheduled(s: RunState): RunState {
    if s.finished || s.subscribers != {} || s.detachTimer then s else s.(detachTimer := true)
  }

  /** The receiving end takes the next queued event. */
  function Taken(s: RunState, id: nat): RunState {
    if id in s.channels && s.channels[id].Queued() > 0
    then s.(channels := s.channels[id := s.channels[id].(taken := s.channels[id].taken + 1)])
    else s
  }

  // ------------------------------------------------------------- invariant

  ghost predicate ChannelOk(s: RunState, c: Channel) {
    && c.taken <= |c.sent| <= c.taken + CHANNEL_SIZE
    && c.start + |c.sent| <= |s.log|
    && c.sent == s.log[c.start..c.start + |c.sent|]
    && (!c.closed ==> c.start + |c.sent| == |s.log|)
  }

  ghost predicate Valid(s: RunState) {
    && |s.log| == s.nextSeq
    && (forall i :: 0 <= i < |s.log| ==> s.log[i].seqNo == i + 1)
    && s.events == LastOf(s.log, BUFFER_LIMIT)
    && (forall id :: id in s.channels ==> id < s.nextSubscriber && ChannelOk(s, s.channels[id]))
    && (forall id :: id in s.subscribers <==> id in s.channels && !s.channels[id].closed)
    && (s.detachTimer ==> !s.finished && s.subscribers == {})
    && (s.finished ==> s.subscribers == {})
    && s.doneClosed == (if s.finished then 1 else 0)
  }

  lemma OpenAreSubscribed(s: RunState)
    requires Valid(s)
    ensures forall id :: id in s.subscribers <==> id in s.channels && !s.channels[id].closed
    ensures !s.finished ==> s.doneClosed == 0
    ensures s.finished ==> s.subscribers == {} && !s.detachTimer
  {
    hide LastOf, ChannelOk;
  }

  datatype Step =
    | Subscribe
    | Unsubscribe(id: nat)
    | Publish(event: StreamEvent)
    | Finish
    | Cancel(reason: CancelReason)
    | ScheduleDetach
    | Take(id: nat)

  function Next(s: RunState, step: Step): RunState {
    match step
    case Subscribe => Subscribed(s)
    case Unsubscribe(id) => Unsubscribed(s, id)
    case Publish(event) => Published(s, event)
    case Finish => FinishedRun(s)
    case Cancel(reason) => CancelReasonSet(s, reason)
    case ScheduleDetach => DetachScheduled(s)
    case Take(id) => Taken(s, id)
  }

  function RunSteps(s: RunState, steps: seq<Step>): RunState {
    if steps == [] then s else Next(RunSteps(s, steps[..|steps| - 1]), steps[|steps| - 1])
  }

  lemma LastOfAppend<T>(s: seq<T>, x: T, n: nat)
    requires n > 0
    ensures LastOf(LastOf(s, n) + [x], n) == LastOf(s + [x], n)
  {
  }

  lemma PublishKeepsChannel(s: RunState, c: Channel, e: StreamEvent, open: bool)
    requires ChannelOk(s, c) && (open <==> !c.closed)
    ensures ChannelOk(s.(log := s.log + [e]), if open then Delivered(c, e) else c)
  {
    assert (s.log + [e])[c.start..c.start + |c.sent|] == s.log[c.start..c.start + |c.sent|];
    if open {
      assert (s.log + [e])[c.start..c.start + |c.sent| + 1] == s.log[c.start..] + [e];
    }
  }

  lemma PublishKeepsValid(s: RunState, event: StreamEvent)
    requires Valid(s)
    ensures Valid(Published(s, event))
  {
    if !s.finished {
      var e := event.(seqNo := s.nextSeq + 1);
      var t := Published(s, event);
      LastOfAppend(s.log, e, BUFFER_LIMIT);
      forall id | id in t.channels
        ensures id < t.nextSubscriber && ChannelOk(t, t.channels[id])
      {
        assert id in s.channels;
        PublishKeepsChannel(s, s.channels[id], e, id in s.subscribers);
      }
    }
  }

  lemma CloseKeepsValid(s: RunState, id: nat)
    requires Valid(s) && id in s.subscribers
    ensures Valid(Unsubscribed(s, id))
  {
    hide LastOf;
    var t := Unsubscribed(s, id);
    assert ChannelOk(t, t.channels[id]) by { assert ChannelOk(s, s.channels[id]); }
    forall other | other in t.channels && other != id ensures ChannelOk(t, t.channels[other]) {
      assert ChannelOk(s, s.channels[other]);
    }
  }

  lemma SubscribeKeepsValid(s: RunState)
    requires Valid(s)
    ensures Valid(Subscribed(s))
  {
    hide LastOf;
    var t := Subscribed(s);
    forall id | id in t.channels ensures id < t.nextSubscriber && ChannelOk(t, t.channels[id]) {
      if id in s.channels {
        assert ChannelOk(s, s.channels[id]);
      }
    }
  }

  lemma FinishKeepsValid(s: RunState)
    requires Valid(s)
    ensures Valid(FinishedRun(s))
  {
    hide LastOf;
    var t := FinishedRun(s);
    forall id | id in t.channels ensures ChannelOk(t, t.channels[id]) {
      assert ChannelOk(s, s.channels[id]);
    }
  }

  lemma TakeKeepsChannel(s: RunState, id: nat, other: nat)
    requires other in s.channels && ChannelOk(s, s.channels[other])
    ensures var t := Taken(s, id);
      && other in t.channels && ChannelOk(t, t.channels[other])
      && t.channels[other].closed == s.channels[other].closed
  {
  }

  lemma TakeKeepsValid(s: RunState, id: nat)
    requires Valid(s)
    ensures Valid(Taken(s, id))
  {
    var t := Taken(s, id);
    forall other | other in s.channels
      ensures other in t.channels && ChannelOk(t, t.channels[other])
      ensures t.channels[other].closed == s.channels[other].closed
    {
      TakeKeepsChannel(s, id, other);
    }
    hide LastOf, ChannelOk;
  }

  /** Every step keeps the window, the channels, the timer and `done` in order. */
  lemma StepKeepsValid(s: RunState, step: Step)
    requires Valid(s)
    ensures Valid(Next(s, step))
  {
    match step
    case Subscribe => SubscribeKeepsValid(s);
    case Unsubscribe(id) => if id in s.subscribers { CloseKeepsValid(s, id); }
    case Publish(event) => PublishKeepsValid(s, event);
    case Finish => FinishKeepsValid(s);
    case Cancel(reason) =>
    case ScheduleDetach =>
    case Take(id) => TakeKeepsValid(s, id);
  }

  /** In every reachable state of a run the window refines the full log. */
  lemma {:induction false} RunKeepsValid(steps: seq<Step>)
    ensures Valid(RunSteps(NEW_RUN, steps))
  {
    if steps == [] {
    } else {
      hide Next, Valid;
      RunKeepsValid(steps[..|steps| - 1]);
      StepKeepsValid(RunSteps(NEW_RUN, steps[..|steps| - 1]), steps[|steps| - 1]);
    }
  }

  // ----------------------------------------------------- what a step changes

  /** Publishing numbers the event, keeps the last 512, and reaches every subscriber whose
      channel holds fewer than 128; the others are dropped. */
  lemma PublishReaches(s: RunState, event: StreamEvent)
    requires Valid(s) && !s.finished
    ensures var t, e := Published(s, event), event.(seqNo := |s.log| + 1);
      && t.log == s.log + [e]
      && (if |t.log| <= 512 then t.events == t.log else t.events == t.log[|t.log| - 512..])
      && t.channels.Keys == s.channels.Keys
      && (forall id :: id in t.subscribers <==>
            id in s.subscribers && |s.channels[id].sent| - s.channels[id].taken < 128)
      && (forall id :: id in s.channels ==>
            t.channels[id] ==
              if id !in s.subscribers then s.channels[id]
              else if id in t.subscribers then s.channels[id].(sent := s.channels[id].sent + [e])
              else s.channels[id].(closed := true))
  {
    LastOfAppend(s.log, event.(seqNo := s.nextSeq + 1), BUFFER_LIMIT);
    hide ChannelOk;
  }

  /** The other steps: a channel is made by subscribing, closed by unsubscribing and finishing,
      and read by its own receiver. */
  lemma ChannelsAfter(s: RunState, step: Step)
    requires Valid(s) && !step.Publish?
    ensures var t := Next(s, step);
      && t.channels.Keys == s.channels.Keys + (if step.Subscribe? && !s.finished then {s.nextSubscriber} else {})
      && (step.Subscribe? && !s.finished ==>
            && t.channels[s.nextSubscriber] == Channel(|s.log|, [], 0, false)
            && t.subscribers == s.subscribers + {s.nextSubscriber})
      && (forall id :: id in s.channels ==>
            t.channels[id] ==
              if step == Unsubscribe(id) || step.Finish? then s.channels[id].(closed := true)
              else if step == Take(id) && s.channels[id].taken < |s.channels[id].sent|
              then s.channels[id].(taken := s.channels[id].taken + 1)
              else s.channels[id])
  {
    hide LastOf, ChannelOk;
  }

  /** The timer is set by scheduling on an unfinished run without subscribers, and stopped by
      a subscriber or the end; a run finishes once. */
  lemma TimerAfter(s: RunState, step: Step)
    requires Valid(s)
    ensures var t := Next(s, step);
      && (t.detachTimer <==>
            || (step.ScheduleDetach? && !s.finished && s.subscribers == {})
            || (s.detachTimer && !step.Subscribe? && !step.Finish?))
      && (t.finished <==> s.finished || step.Finish?)
      && t.doneClosed - s.doneClosed == (if step.Finish? && !s.finished then 1 else 0)
  {
    hide LastOf, ChannelOk;
  }

  // --------------------------------------------------- why it was cancelled

  /** Step `i` is the first to give a reason. */
  ghost predicate GivesFirst(steps: seq<Step>, i: int, reason: CancelReason) {
    && 0 <= i < |steps| && steps[i] == Cancel(reason) && reason != NoReason
    && forall j :: 0 <= j < i && steps[j].Cancel? ==> steps[j].reason == NoReason
  }

  ghost predicate NoneGiven(steps: seq<Step>) {
    forall i :: 0 <= i < |steps| && steps[i].Cancel? ==> steps[i].reason == NoReason
  }

  lemma FirstStays(steps: seq<Step>, more: seq<Step>, i: int, reason: CancelReason)
    requires 0 <= i < |steps|
    ensures GivesFirst(steps, i, reason) <==> GivesFirst(steps + more, i, reason)
  {
    var all := steps + more;
    assert forall j :: 0 <= j <= i ==> all[j] == steps[j];
  }

  lemma OnlyCancelSetsReason(s: RunState, step: Step)
    ensures Next(s, step).cancelReason ==
      if step.Cancel? && s.cancelReason == NoReason then step.reason else s.cancelReason
  {
    hide LastOf;
  }

  /** In every run the cancel reason is the first one given, and there is none exactly if
      none was given. */
  lemma {:induction false} ReasonIsFirst(steps: seq<Step>) returns (i: int)
    ensures RunSteps(NEW_RUN, steps).cancelReason == NoReason <==> NoneGiven(steps)
    ensures !NoneGiven(steps) ==> GivesFirst(steps, i, RunSteps(NEW_RUN, steps).cancelReason)
  {
    hide Next;
    i := 0;
    if steps == [] {
    } else {
      var n := |steps| - 1;
      var init, last, before := steps[..n], steps[n], RunSteps(NEW_RUN, steps[..n]);
      i := ReasonIsFirst(init);
      OnlyCancelSetsReason(before, last);
      assert steps == init + [last];
      if !NoneGiven(init) {
        FirstStays(init, [last], i, before.cancelReason);
        assert steps[i] == init[i];
      } else if last.Cancel? && last.reason != NoReason {
        i := n;
        assert steps[n] == last;
      }
    }
  }

  lemma OnlyOneFirst(steps: seq<Step>, i: int, a: CancelReason, j: int, b: CancelReason)
    requires GivesFirst(steps, i, a) && GivesFirst(steps, j, b)
    ensures i == j && a == b
  {
  }

  // ------------------------------------------------------ what subscribers see

  ghost predicate Numbered(events: seq<StreamEvent>, base: nat) {
    forall i :: 0 <= i < |events| ==> events[i].seqNo == base + i + 1
  }

  lemma {:induction false} ReplayedNumbered(events: seq<StreamEvent>, base: nat, afterSeq: int)
    requires Numbered(events, base)
    ensures Replayed(events, afterSeq) ==
      if afterSeq <= base then events
      else if afterSeq >= base + |events| then []
      else events[afterSeq - base..]
  {
    if events == [] {
    } else {
      var n := |events| - 1;
      ReplayedNumbered(events[..n], base, afterSeq);
      assert events == events[..n] + [events[n]];
      if base < afterSeq <= base + n {
        assert events[afterSeq - base..] == events[..n][afterSeq - base..] + [events[n]];
      }
    }
  }

  function WindowStart(s: RunState): nat {
    if s.nextSeq <= BUFFER_LIMIT then 0 else s.nextSeq - BUFFER_LIMIT
  }

  lemma WindowNumbered(s: RunState)
    requires Valid(s)
    ensures var base := WindowStart(s);
      base + |s.events| == |s.log| == s.nextSeq && s.events == s.log[base..] && Numbered(s.events, base)
  {
    hide ChannelOk;
  }

  /** Where the replay of a subscription begins in the full log. */
  function ReplayStart(s: RunState, afterSeq: int): int {
    var window := WindowStart(s);
    if afterSeq <= window then window else if afterSeq >= s.nextSeq then s.nextSeq else afterSeq
  }

  /** The replay is the log from some point to its end: no gap inside it, none behind it. */
  lemma ReplayIsSuffix(s: RunState, afterSeq: int)
    requires Valid(s)
    ensures 0 <= ReplayStart(s, afterSeq) <= |s.log|
    ensures Replayed(s.events, afterSeq) == s.log[ReplayStart(s, afterSeq)..]
  {
    var base := WindowStart(s);
    WindowNumbered(s);
    hide Valid, Numbered, Replayed, WindowStart;
    ReplayedNumbered(s.events, base, afterSeq);
    if base < afterSeq < s.nextSeq {
      assert s.log[base..][afterSeq - base..] == s.log[afterSeq..];
    }
  }

  /** A subscription's replay and everything its channel is ever sent are one slice of
      the log, in every state that can follow. */
  lemma ReplayAndChannelAreOneSlice(s: RunState, afterSeq: int, t: RunState, id: nat)
    requires Valid(s) && Valid(t) && s.log <= t.log
    requires id in t.channels && t.channels[id].start == s.nextSeq
    ensures var from := ReplayStart(s, afterSeq);
      var all := Replayed(s.events, afterSeq) + t.channels[id].sent;
      0 <= from && from + |all| <= |t.log| && all == t.log[from..from + |all|]
  {
    ReplayIsSuffix(s, afterSeq);
    var from, c := ReplayStart(s, afterSeq), t.channels[id];
    assert c.sent == t.log[s.nextSeq..s.nextSeq + |c.sent|] && |s.log| == s.nextSeq;
    hide LastOf, Replayed, ReplayStart, Valid, ChannelOk;
    assert s.log == t.log[..s.nextSeq];
    assert s.log[from..] == t.log[from..s.nextSeq];
    Adjacent(t.log, from, s.nextSeq, s.nextSeq + |c.sent|);
  }

  /** A client that has the first `n` events resumes without a gap exactly when it is
      no more than a window behind. */
  lemma ResumeIsGapFree(s: RunState, n: nat)
    requires Valid(s) && n <= s.nextSeq
    ensures s.log[..n] + Replayed(s.events, n) == s.log <==> s.nextSeq - n <= BUFFER_LIMIT
  {
    ReplayIsSuffix(s, n);
    var from := ReplayStart(s, n);
    if from == n {
      assert s.log[..n] + s.log[n..] == s.log;
    } else {
      assert |s.log[..n] + s.log[from..]| < |s.log|;
    }
  }

  /** Once set, a cancel reason stays; a closed channel stays closed and a finished run
      finished; the log only grows. */
  lemma StepsAreMonotone(s: RunState, step: Step)
    requires Valid(s)
    ensures var t := Next(s, step);
      && s.log <= t.log
      && (s.finished ==> t.finished && t.log == s.log)
      && (s.cancelReason != NoReason ==> t.cancelReason == s.cancelReason)
      && (forall id :: id in s.channels ==>
            && id in t.channels
            && t.channels[id].start == s.channels[id].start
            && s.channels[id].sent <= t.channels[id].sent
            && (s.channels[id].closed ==> t.channels[id].closed && t.channels[id].sent == s.channels[id].sent))
  {
    hide LastOf, ChannelOk;
  }

  // ------------------------------------------------------------- the object

  class ActiveRun {
    ghost var log: seq<StreamEvent>
    var nextSeq: nat
    var events: seq<StreamEvent>
    var channels: map<nat, Channel>
    var subscribers: set<nat>
    var nextSubscriber: nat
    var finished: bool
    var cancelReason: CancelReason
    var detachTimer: bool
    var doneClosed: nat

    ghost function State(): RunState
      reads this
    {
      RunState(
        log, nextSeq, events, channels, subscribers, nextSubscriber, finished, cancelReason, detachTimer, doneClosed)
    }

    constructor ()
      ensures State() == NEW_RUN
    {
      log, nextSeq, events, channels, subscribers, nextSubscriber := [], 0, [], map[], {}, 0;
      finished, cancelReason, detachTimer, doneClosed := false, NoReason, false, 0;
    }

    method Subscribe(afterSeq: int) returns (replay: seq<StreamEvent>, id: Option<nat>)
      requires Valid(State())
      modifies this
      ensures State() == Subscribed(old(State())) && Valid(State())
      ensures replay == Replayed(old(events), afterSeq) && id == SubscribedId(old(State()))
    {
      SubscribeKeepsValid(State());
      hide Valid;
      if detachTimer {
        detachTimer := false;
      }
      replay := CollectReplay(afterSeq);
      if finished {
        return replay, None;
      }
      var subscriberId := nextSubscriber;
      nextSubscriber := nextSubscriber + 1;
      channels := channels[subscriberId := Channel(nextSeq, [], 0, false)];
      subscribers := subscribers + {subscriberId};
      return replay, Some(subscriberId);
    }

    method CollectReplay(afterSeq: int) returns (replay: seq<StreamEvent>)
      ensures replay == Replayed(events, afterSeq)
    {
      replay := [];
      for i := 0 to |events|
        invariant replay == Replayed(events[..i], afterSeq)
      {
        var event := events[i];
        assert events[..i + 1][..i] == events[..i];
        if event.seqNo > afterSeq {
          replay := replay + [event];
        }
      }
      assert events[..|events|] == events;
    }

    /** Closing panics on a closed channel, so an open one is required. */
    method CloseChannel(id: nat)
      requires id in channels && !channels[id].closed
      modifies this`channels, this`subscribers
      ensures State() == Closed(old(State()), id)
    {
      subscribers := subscribers - {id};
      channels := channels[id := channels[id].(closed := true)];
    }

    method Unsubscribe(id: nat)
      requires Valid(State())
      modifies this
      ensures State() == Unsubscribed(old(State()), id) && Valid(State())
    {
      if id !in subscribers {
        return;
      }
      CloseKeepsValid(State(), id);
      CloseChannel(id);
    }

    /** Sending panics on a closed channel, so an open one with room is required. */
    method Send(id: nat, event: StreamEvent)
      requires id in channels && !channels[id].closed && channels[id].Queued() < CHANNEL_SIZE
      modifies this`channels
      ensures channels == old(channels)[id := Delivered(old(channels)[id], event)]
    {
      channels := channels[id := channels[id].(sent := channels[id].sent + [event])];
    }

    method Publish(event: StreamEvent)
      requires Valid(State())
      modifies this
      ensures State() == Published(old(State()), event) && Valid(State())
    {
      PublishKeepsValid(State(), event);
      OpenAreSubscribed(State());
      hide Valid, DeliveredAll, WithRoom, LastOf;
      if finished {
        return;
      }
      nextSeq := nextSeq + 1;
      var e := event.(seqNo := nextSeq);
      log := log + [e];
      events := events + [e];
      KeepWindow();
      Deliver(e);
    }

    method KeepWindow()
      modifies this`events
      ensures events == LastOf(old(events), BUFFER_LIMIT)
    {
      if |events| > BUFFER_LIMIT {
        events := events[|events| - BUFFER_LIMIT..];
      }
    }

    method Deliver(e: StreamEvent)
      requires forall id :: id in subscribers <==> id in channels && !channels[id].closed
      modifies this`channels, this`subscribers
      ensures channels == DeliveredAll(old(channels), old(subscribers), e)
      ensures subscribers == WithRoom(old(channels), old(subscribers))
    {
      ghost var before, was := channels, subscribers;
      var remaining := subscribers;
      while remaining != {}
        invariant remaining <= was && channels.Keys == before.Keys
        invariant forall id :: id in before ==>
          channels[id] == if id in was - remaining then Delivered(before[id], e) else before[id]
        invariant forall id :: id in subscribers <==>
          id in was && (id in remaining || before[id].Queued() < CHANNEL_SIZE)
        decreases remaining
      {
        var id :| id in remaining;
        remaining := remaining - {id};
        if channels[id].Queued() < CHANNEL_SIZE {
          Send(id, e);
        } else {
          CloseChannel(id);
        }
      }
    }

    method Finish()
      requires Valid(State())
      modifies this
      ensures State() == FinishedRun(old(State())) && Valid(State())
    {
      FinishKeepsValid(State());
      OpenAreSubscribed(State());
      hide Valid, ClosedAll;
      if finished {
        return;
      }
      finished := true;
      if detachTimer {
        detachTimer := false;
      }
      CloseAll();
      CloseDone();
    }

    method CloseAll()
      requires forall id :: id in subscribers <==> id in channels && !channels[id].closed
      modifies this`channels, this`subscribers
      ensures channels == ClosedAll(old(channels), old(subscribers))
      ensures subscribers == {}
    {
      ghost var before, was := channels, subscribers;
      while subscribers != {}
        invariant subscribers <= was && channels.Keys == before.Keys
        invariant forall id :: id in before ==>
          channels[id] == if id in was - subscribers then before[id].(closed := true) else before[id]
        decreases subscribers
      {
        var id :| id in subscribers;
        CloseChannel(id);
      }
    }

    /** Closing `done` twice would panic. */
    method CloseDone()
      requires doneClosed == 0
      modifies this`doneClosed
      ensures doneClosed == 1
    {
      doneClosed := doneClosed + 1;
    }

    method SetCancelReason(reason: CancelReason)
      modifies this
      ensures State() == CancelReasonSet(old(State()), reason)
    {
      if cancelReason == NoReason {
        cancelReason := reason;
      }
    }

    method ScheduleDetachCancellation()
      modifies this
      ensures State() == DetachScheduled(old(State()))
    {
      if finished || |subscribers| > 0 || detachTimer {
        return;
      }
      detachTimer := true;
    }
  }
}

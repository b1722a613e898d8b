/** From the model's deltas to the client: what a client of a resumable run has read is the
    start of what gets stored, and in the end all of it
    (backend/internal/chat/generation_streaming.go:37-146,
    backend/internal/chat/generation_active_run.go:28-31, 93-127). */
module Delivery {
  import opened Text
  import opened Events
  import opened ActiveRuns
  import opened AssistantStream
  import opened Resume

  /** The executor has finished the run. */
  predicate Over(steps: seq<ClientStep>) {
    exists i :: 0 <= i < |steps| && steps[i] == Others(Step.Finish)
  }

  /** The events published before that: what `run.publish` was called with. */
  function Emitted(steps: seq<ClientStep>): seq<StreamEvent> {
    if steps == [] then []
    else
      var n := |steps| - 1;
      var last := steps[n];
      if last.Others? && last.step.Publish? && !Over(steps[..n])
      then Emitted(steps[..n]) + [last.step.event] else Emitted(steps[..n])
  }

  /** Events with the sequence numbers that publishing gives them. */
  function Sealed(events: seq<StreamEvent>): (log: seq<StreamEvent>)
    ensures |log| == |events|
    ensures forall i :: 0 <= i < |events| ==> log[i] == events[i].(seqNo := i + 1)
  {
    if events == [] then []
    else
      var n := |events| - 1;
      Sealed(events[..n]) + [events[n].(seqNo := n + 1)]
  }

  lemma OverStep(steps: seq<ClientStep>)
    requires steps != []
    ensures Over(steps) <==> Over(steps[..|steps| - 1]) || steps[|steps| - 1] == Others(Step.Finish)
  {
    var n := |steps| - 1;
    if Over(steps[..n]) {
      var i :| 0 <= i < n && steps[..n][i] == Others(Step.Finish);
      assert steps[i] == Others(Step.Finish);
    }
    if Over(steps) {
      var i :| 0 <= i < |steps| && steps[i] == Others(Step.Finish);
      assert i < n ==> steps[..n][i] == Others(Step.Finish);
    }
  }

  lemma SealedMore(events: seq<StreamEvent>, event: StreamEvent)
    ensures Sealed(events + [event]) == Sealed(events) + [event.(seqNo := |events| + 1)]
  {
    assert (events + [event])[..|events|] == events;
  }

  lemma LogStays(c: Session, step: ClientStep)
    requires Enabled(c, step) && !(step.Others? && (step.step.Publish? || step.step.Finish?))
    ensures After(c, step).run.log == c.run.log && After(c, step).run.finished == c.run.finished
  {
    hide Replayed, LastOf;
  }

  lemma LogPublished(c: Session, event: StreamEvent)
    requires Enabled(c, Others(Publish(event)))
    ensures var t, e := After(c, Others(Publish(event))), event.(seqNo := c.run.nextSeq + 1);
      t.run.finished == c.run.finished && t.run.log == if c.run.finished then c.run.log else c.run.log + [e]
  {
    hide LastOf;
  }

  lemma LogFinished(c: Session)
    requires Enabled(c, Others(Step.Finish))
    ensures var t := After(c, Others(Step.Finish)); t.run.finished && t.run.log == c.run.log
  {
  }

  lemma NextIsLength(steps: seq<ClientStep>, d: Session)
    requires Ran(NEW_SESSION, steps) == Some(d)
    ensures d.run.nextSeq == |d.run.log|
  {
    assert Good(NEW_SESSION);
    hide Ran, Numbered, LastOf;
    ReachableIsGood(NEW_SESSION, steps, d);
  }

  lemma NothingYet()
    ensures Sealed([]) == [] && !Over([])
  {
  }

  /** The log is what was emitted, whatever clients do meanwhile. */
  lemma {:induction false} LogIsEmitted(steps: seq<ClientStep>, d: Session)
    requires Ran(NEW_SESSION, steps) == Some(d)
    ensures d.run.log == Sealed(Emitted(steps)) && d.run.finished == Over(steps)
  {
    hide Over, After, Enabled, Sealed;
    if steps == [] {
      NothingYet();
    } else {
      var n := |steps| - 1;
      var last := steps[n];
      var mid := Ran(NEW_SESSION, steps[..n]).value;
      LogIsEmitted(steps[..n], mid);
      OverStep(steps);
      if last.Others? && last.step.Publish? {
        NextIsLength(steps[..n], mid);
        LogPublished(mid, last.step.event);
        SealedMore(Emitted(steps[..n]), last.step.event);
      } else if last.Others? && last.step.Finish? {
        LogFinished(mid);
      } else {
        LogStays(mid, last);
      }
    }
  }

  /** Sequence numbers do not matter to what a log says. */
  lemma {:induction false} SealedReads(events: seq<StreamEvent>, kind: EventKind)
    ensures PhaseOf(Sealed(events)) == PhaseOf(events)
    ensures TextOf(Sealed(events), kind) == TextOf(events, kind)
  {
    if events == [] {
    } else {
      var n := |events| - 1;
      SealedReads(events[..n], kind);
      var sealed := events[n].(seqNo := n + 1);
      LogStep(Sealed(events[..n]), sealed, kind);
      assert Sealed(events) == Sealed(events[..n]) + [sealed];
    }
  }

  /** A client that has consumed a run's whole log has exactly the stored content, reasoning
      and status: what the run agreed with its message, the client's events agree with too. */
  lemma ClientReconstructs(steps: seq<ClientStep>, d: Session, final: MessageView, stored: Option<MessageView>)
    requires Ran(NEW_SESSION, steps) == Some(d) && d.consumed == d.run.log
    requires WireAgrees(Emitted(steps), final, stored)
    ensures WireAgrees(d.consumed, final, stored)
    ensures TextOf(d.consumed, Delta) == final.content && TextOf(d.consumed, ReasoningDelta) == final.reasoning
    ensures stored.Some? ==> d.consumed != [] && d.consumed[|d.consumed| - 1].message == stored
  {
    var events := Emitted(steps);
    LogIsEmitted(steps, d);
    SealedReads(events, Delta);
    SealedReads(events, ReasoningDelta);
    hide PhaseOf, TextOf, Ran, Emitted;
  }

  lemma {:induction false} TextGrows(log: seq<StreamEvent>, n: nat, kind: EventKind)
    requires n <= |log|
    ensures TextOf(log[..n], kind) <= TextOf(log, kind)
    decreases |log|
  {
    if n == |log| {
      assert log[..n] == log;
    } else {
      TextGrows(log[..|log| - 1], n, kind);
      assert log[..|log| - 1][..n] == log[..n];
    }
  }

  /** At any time, over any number of connections, the text a client has put together is a
      start of what gets stored. */
  lemma ClientHasStart(steps: seq<ClientStep>, d: Session, final: MessageView, stored: Option<MessageView>)
    requires Ran(NEW_SESSION, steps) == Some(d)
    requires WireAgrees(Emitted(steps), final, stored)
    ensures TextOf(d.consumed, Delta) <= final.content && TextOf(d.consumed, ReasoningDelta) <= final.reasoning
  {
    var events := Emitted(steps);
    LogIsEmitted(steps, d);
    SealedReads(events, Delta);
    SealedReads(events, ReasoningDelta);
    ExactlyOnce(steps, d);
    TextGrows(d.run.log, |d.consumed|, Delta);
    TextGrows(d.run.log, |d.consumed|, ReasoningDelta);
    assert d.run.log[..|d.consumed|] == d.consumed;
  }

  // ------------------------------------------- the executor and its clients

  /** Whenever these events are what a run publishes, then at any time the text of a client is
      a start of the final one, and a client that has the whole log agrees with what is stored. */
  ghost predicate Delivers(events: seq<StreamEvent>, final: MessageView, stored: Option<MessageView>) {
    forall steps, d :: Ran(NEW_SESSION, steps) == Some(d) && Emitted(steps) == events ==>
      && TextOf(d.consumed, Delta) <= final.content
      && TextOf(d.consumed, ReasoningDelta) <= final.reasoning
      && (d.consumed == d.run.log ==> WireAgrees(d.consumed, final, stored))
  }

  /** What the executor of a run does, as every client sees it: the message it stores, and
      what any client of the run has read at any time. */
  method ExecuteRun(first: ModelCall, second: ModelCall, reason0: CancelReason, reason1: CancelReason,
                    writes: bool, message: AssistantMessage, run: EventSink)
    requires message.stored == None && run.events == []
    modifies message, run
    ensures message.stored == if writes then Some(FinalView(first, second, reason0, reason1)) else None
    ensures Delivers(run.events, FinalView(first, second, reason0, reason1), message.stored)
    ensures run.events != []
    ensures writes ==>
      RunEnds(first, second, reason0 == ByUser || reason1 == Detached,
              message.stored.value, run.events[|run.events| - 1])
  {
    hide Ran, Emitted, TextOf, FinalView, RunEnds;
    RunAssistant(first, second, reason0, reason1, writes, message, run);
    hide WireAgrees;
    ghost var final := FinalView(first, second, reason0, reason1);
    forall steps, d | Ran(NEW_SESSION, steps) == Some(d) && Emitted(steps) == run.events
      ensures TextOf(d.consumed, Delta) <= final.content && TextOf(d.consumed, ReasoningDelta) <= final.reasoning
      ensures d.consumed == d.run.log ==> WireAgrees(d.consumed, final, message.stored)
    {
      ClientHasStart(steps, d, final, message.stored);
      if d.consumed == d.run.log {
        ClientReconstructs(steps, d, final, message.stored);
      }
    }
  }

  /** The run was stopped by its user before the first of the two reads of the reason, or by
      its timer before the second, and nothing else came first. */
  ghost predicate StoppedInTime(steps: seq<Step>, read: nat) {
    || (exists i :: i < read && GivesFirst(steps, i, ByUser))
    || (exists i :: GivesFirst(steps, i, Detached))
  }

  /** The two reads of one run's reason: the error makes the run cancelled exactly if it is a
      cancellation and the run was stopped in time; without an error the run is completed. */
  lemma CancelledExactly(steps: seq<Step>, read: nat, error: Option<StreamError>)
    requires read <= |steps|
    ensures var reason0 := RunSteps(NEW_RUN, steps[..read]).cancelReason;
      var reason1 := RunSteps(NEW_RUN, steps).cancelReason;
      var status := FinalStatus(error, reason0, reason1);
      && (status == Completed <==> error == None)
      && (status == CancelledStatus <==> error.Some? && error.value.Canceled? && StoppedInTime(steps, read))
      && (status == Failed <==> error.Some? && !(error.value.Canceled? && StoppedInTime(steps, read)))
  {
    hide RunSteps;
    var early := steps[..read];
    var i := ReasonIsFirst(early);
    var j := ReasonIsFirst(steps);
    assert early + steps[read..] == steps;
    forall k, reason | 0 <= k < read ensures GivesFirst(early, k, reason) <==> GivesFirst(steps, k, reason) {
      FirstStays(early, steps[read..], k, reason);
    }
    var reason0, reason1 := RunSteps(NEW_RUN, early).cancelReason, RunSteps(NEW_RUN, steps).cancelReason;
    forall k, reason | GivesFirst(steps, k, reason) ensures k == j && reason == reason1 {
      OnlyOneFirst(steps, k, reason, j, reason1);
    }
    forall k, reason | GivesFirst(early, k, reason) ensures k == i && reason == reason0 {
      OnlyOneFirst(early, k, reason, i, reason0);
    }
  }

  /** A client that has followed an open run from its start and is up to date. */
  ghost predicate UpToDate(c: Session) {
    && c.connected && c.wire == [] && c.pending == [] && c.channel.Some?
    && c.channel.value in c.run.channels && c.channel.value in c.run.subscribers
    && c.run.channels[c.channel.value].Queued() == 0
    && c.consumed == c.run.log && !c.run.finished
  }

  function Follow(e: StreamEvent): seq<ClientStep> {
    [Others(Publish(e))] + [SendQueued] + [Consume]
  }

  lemma FollowsOne(c: Session, e: StreamEvent) returns (d: Session)
    requires UpToDate(c)
    ensures Ran(c, Follow(e)) == Some(d) && UpToDate(d)
  {
    var published := Others(Publish(e));
    var c1 := After(c, published);
    OneStep(c, published);
    var c2 := After(c1, SendQueued);
    OneStep(c1, SendQueued);
    d := After(c2, Consume);
    OneStep(c2, Consume);
    hide Ran, Replayed, LastOf;
    RanJoin(c, [published], [SendQueued]);
    RanJoin(c, [published] + [SendQueued], [Consume]);
  }

  lemma FollowEmits(steps: seq<ClientStep>, e: StreamEvent)
    requires !Over(steps)
    ensures Emitted(steps + Follow(e)) == Emitted(steps) + [e] && !Over(steps + Follow(e))
  {
    var s1, s2, s3 := steps + [Others(Publish(e))], steps + [Others(Publish(e))] + [SendQueued], steps + Follow(e);
    assert s1[..|steps|] == steps && s2[..|s1|] == s1 && s3 == s2 + [Consume] && s3[..|s2|] == s2;
    OverStep(s1);
    OverStep(s2);
    OverStep(s3);
    assert Emitted(s1) == Emitted(steps) + [e];
    assert Emitted(s2) == Emitted(s1);
  }

  lemma Joins() returns (d: Session)
    ensures Ran(NEW_SESSION, [Connect]) == Some(d) && UpToDate(d)
    ensures Emitted([Connect]) == [] && !Over([Connect])
  {
    d := After(NEW_SESSION, Connect);
    OneStep(NEW_SESSION, Connect);
    assert [Connect][..0] == [];
  }

  lemma {:induction false} LiveClientFollows(events: seq<StreamEvent>) returns (steps: seq<ClientStep>, d: Session)
    ensures Ran(NEW_SESSION, steps) == Some(d) && UpToDate(d)
    ensures Emitted(steps) == events && !Over(steps)
  {
    hide Over, Ran, Emitted, UpToDate, Follow;
    if events == [] {
      steps := [Connect];
      d := Joins();
    } else {
      var n := |events| - 1;
      var before, c := LiveClientFollows(events[..n]);
      d := FollowsOne(c, events[n]);
      FollowEmits(before, events[n]);
      RanJoin(NEW_SESSION, before, Follow(events[n]));
      steps := before + Follow(events[n]);
    }
  }

  /** Whatever is published, a client that joins first and reads as it comes has the whole
      log in the end. */
  lemma LiveClientHasAll(events: seq<StreamEvent>) returns (steps: seq<ClientStep>, d: Session)
    ensures Ran(NEW_SESSION, steps) == Some(d) && Emitted(steps) == events && Over(steps)
    ensures d.run.finished && d.consumed == d.run.log == Sealed(events)
  {
    hide Sealed, Over, Replayed, LastOf;
    var before, c := LiveClientFollows(events);
    var finish := Others(Step.Finish);
    steps := before + [finish];
    assert steps[..|before|] == before;
    d := After(c, finish);
    OneStep(c, finish);
    OverStep(steps);
    RanJoin(NEW_SESSION, before, [finish]);
    LogIsEmitted(steps, d);
  }
}

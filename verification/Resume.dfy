/** A client that follows a run over several connections
    (backend/internal/chat/generation_active_run.go:93-127 and
    backend/internal/chat/active_run.go:51-116). */
module Resume {
  import opened Text
  import opened Events
  import opened ActiveRuns

  /** The run, and one client of it: the events the client has consumed, those on
      the connection, those of the replay its handler still has to send, and the
      handler's channel.  A handler that subscribed to a finished run has none. */
  datatype Session = Session(
    run: RunState,
    consumed: seq<StreamEvent>,
    wire: seq<StreamEvent>,
    pending: seq<StreamEvent>,
    connected: bool,
    channel: Option<nat>)

  /** The sequence number the client resumes after. */
  function LastSeq(c: Session): int {
    if c.consumed == [] then 0 else c.consumed[|c.consumed| - 1].seqNo
  }

  datatype ClientStep =
    | Others(step: Step)    // the run and every other client
    | Connect               // subscribe after the last consumed event
    | SendReplay            // the handler sends the next event of the replay
    | SendQueued            // the handler sends the next event of its channel
    | Consume               // the client reads the next event off the connection
    | Disconnect            // the connection breaks; what was on it is lost

  predicate Enabled(c: Session, step: ClientStep) {
    match step
    case Others(s) =>
      c.connected && c.channel.Some? ==> s != Take(c.channel.value) && s != Unsubscribe(c.channel.value)
    case Connect => !c.connected && c.run.nextSeq - LastSeq(c) <= BUFFER_LIMIT
    case SendReplay => c.connected && c.pending != []
    case SendQueued =>
      && c.connected && c.pending == [] && c.channel.Some?
      && c.channel.value in c.run.channels
      && 0 <= c.run.channels[c.channel.value].taken < |c.run.channels[c.channel.value].sent|
    case Consume => c.connected && c.wire != []
    case Disconnect => c.connected
  }

  function After(c: Session, step: ClientStep): Session
    requires Enabled(c, step)
  {
    match step
    case Others(s) => c.(run := Next(c.run, s))
    case Connect =>
      c.(run := Subscribed(c.run),
         wire := [],
         pending := Replayed(c.run.events, LastSeq(c)),
         connected := true,
         channel := SubscribedId(c.run))
    case SendReplay => c.(wire := c.wire + [c.pending[0]], pending := c.pending[1..])
    case SendQueued =>
      var ch := c.run.channels[c.channel.value];
      c.(run := Taken(c.run, c.channel.value), wire := c.wire + [ch.sent[ch.taken]])
    case Consume => c.(consumed := c.consumed + [c.wire[0]], wire := c.wire[1..])
    case Disconnect =>
      c.(run := if c.channel.Some? then Unsubscribed(c.run, c.channel.value) else c.run,
         wire := [], pending := [], connected := false, channel := None)
  }

  /** All that the client has, or will get from this connection's replay. */
  function InHand(c: Session): seq<StreamEvent> {
    c.consumed + c.wire + c.pending
  }

  ghost predicate Good(c: Session) {
    && Valid(c.run)
    && c.consumed <= c.run.log
    && (!c.connected ==> c.wire == [] && c.pending == [])
    && (c.connected ==>
          match c.channel
          case None => c.run.finished && InHand(c) == c.run.log
          case Some(id) =>
            && id in c.run.channels
            && ChannelOk(c.run, c.run.channels[id])
            && InHand(c) == c.run.log[..c.run.channels[id].start + c.run.channels[id].taken])
  }

  lemma OthersLeaveChannel(s: RunState, step: Step, id: nat)
    requires Valid(s) && id in s.channels && step != Take(id)
    ensures var t := Next(s, step);
      && id in t.channels
      && t.channels[id].start == s.channels[id].start && t.channels[id].taken == s.channels[id].taken
  {
    hide LastOf;
  }

  /** What a client relies on, in a later state of the run. */
  lemma GoodLater(c: Session, t: RunState)
    requires Good(c) && Valid(t) && c.run.log <= t.log && (c.run.finished ==> t.finished && t.log == c.run.log)
    requires c.connected && c.channel.Some? ==>
      (var id := c.channel.value;
       id in t.channels && t.channels[id].start == c.run.channels[id].start
       && t.channels[id].taken == c.run.channels[id].taken)
    ensures Good(c.(run := t))
  {
    if c.connected && c.channel.Some? {
      var id := c.channel.value;
      var n := c.run.channels[id].start + c.run.channels[id].taken;
      assert ChannelOk(t, t.channels[id]) && n <= |c.run.log|;
      hide LastOf, ChannelOk, Valid;
      assert c.run.log[..n] == t.log[..n];
    }
  }

  lemma GoodOthers(c: Session, s: Step)
    requires Good(c) && Enabled(c, Others(s))
    ensures Good(After(c, Others(s)))
  {
    StepKeepsValid(c.run, s);
    StepsAreMonotone(c.run, s);
    if c.connected && c.channel.Some? {
      OthersLeaveChannel(c.run, s, c.channel.value);
    }
    hide Next, LastOf, Valid, ChannelOk, InHand;
    GoodLater(c, Next(c.run, s));
  }

  lemma LastSeqIsCount(c: Session)
    requires Good(c)
    ensures LastSeq(c) == |c.consumed|
  {
    hide LastOf;
    if c.consumed != [] {
      assert c.consumed[|c.consumed| - 1] == c.run.log[|c.consumed| - 1];
    }
  }

  lemma GoodConnect(c: Session)
    requires Good(c) && Enabled(c, Connect)
    ensures Good(After(c, Connect)) && InHand(After(c, Connect)) == c.run.log
  {
    LastSeqIsCount(c);
    var n := |c.consumed|;
    SubscribeKeepsValid(c.run);
    ResumeIsGapFree(c.run, n);
    hide LastOf, Replayed;
    assert c.run.log[..n] == c.consumed;
    assert c.consumed + [] == c.consumed;
    assert c.run.log[..|c.run.log|] == c.run.log;
    if !c.run.finished {
      var t := Subscribed(c.run);
      assert ChannelOk(t, t.channels[c.run.nextSubscriber]);
    }
  }

  lemma TakenIsNext(s: RunState, id: nat)
    requires Valid(s) && id in s.channels && s.channels[id].Queued() > 0
    ensures var t, ch := Taken(s, id), s.channels[id];
      && Valid(t) && t.log == s.log && id in t.channels
      && t.channels[id] == ch.(taken := ch.taken + 1) && ChannelOk(t, t.channels[id])
      && ch.start + ch.taken < |s.log| && ch.sent[ch.taken] == s.log[ch.start + ch.taken]
  {
    TakeKeepsValid(s, id);
    hide LastOf;
    var t := Taken(s, id);
    assert id in t.channels;
    assert ChannelOk(s, s.channels[id]);
  }

  lemma MoreInHand(c: Session, event: StreamEvent)
    requires c.pending == []
    ensures InHand(c.(wire := c.wire + [event])) == InHand(c) + [event]
  {
    Regroup(c.consumed, c.wire, [event]);
  }

  /** Sending from the channel is taking from it and putting that on the wire. */
  lemma SendQueuedIs(c: Session)
    requires Good(c) && Enabled(c, SendQueued)
    ensures c.connected && c.pending == [] && c.channel.Some? && c.channel.value in c.run.channels
    ensures var id := c.channel.value;
      var ch := c.run.channels[id];
      var n := ch.start + ch.taken;
      && n < |c.run.log| && InHand(c) == c.run.log[..n]
      && After(c, SendQueued) == c.(run := Taken(c.run, id), wire := c.wire + [c.run.log[n]])
  {
    TakenIsNext(c.run, c.channel.value);
    hide LastOf, Valid, ChannelOk, InHand;
  }

  lemma GoodSendQueued(c: Session)
    requires Good(c) && Enabled(c, SendQueued)
    ensures Good(After(c, SendQueued))
  {
    SendQueuedIs(c);
    var id := c.channel.value;
    TakenIsNext(c.run, id);
    hide LastOf, Valid, ChannelOk, Enabled, After, Taken;
    var ch := c.run.channels[id];
    var n := ch.start + ch.taken;
    MoreInHand(c, c.run.log[n]);
    hide InHand;
    assert c.run.log[..n + 1] == c.run.log[..n] + [c.run.log[n]];
  }

  lemma GoodConsume(c: Session)
    requires Good(c) && Enabled(c, Consume)
    ensures Good(After(c, Consume)) && InHand(After(c, Consume)) == InHand(c)
  {
    hide LastOf, Valid;
    var t := After(c, Consume);
    assert c.wire == [c.wire[0]] + t.wire;
    assert InHand(t) == InHand(c);
    assert t.consumed <= InHand(c);
  }

  lemma GoodDisconnect(c: Session)
    requires Good(c) && Enabled(c, Disconnect)
    ensures Good(After(c, Disconnect))
  {
    hide LastOf;
    if c.channel.Some? {
      StepKeepsValid(c.run, Unsubscribe(c.channel.value));
    }
  }

  lemma GoodStep(c: Session, step: ClientStep)
    requires Good(c) && Enabled(c, step)
    ensures Good(After(c, step))
  {
    match step
    case Others(s) => GoodOthers(c, s);
    case Connect => GoodConnect(c);
    case SendReplay =>
      assert c.pending == [c.pending[0]] + c.pending[1..];
      assert InHand(After(c, step)) == InHand(c);
    case SendQueued => GoodSendQueued(c);
    case Consume => GoodConsume(c);
    case Disconnect => GoodDisconnect(c);
  }

  /** Taking the given steps, each of which must be enabled. */
  function Ran(c: Session, steps: seq<ClientStep>): Option<Session> {
    if steps == [] then Some(c)
    else
      var mid := Ran(c, steps[..|steps| - 1]);
      var last := steps[|steps| - 1];
      if mid.Some? && Enabled(mid.value, last) then Some(After(mid.value, last)) else None
  }

  const NEW_SESSION := Session(NEW_RUN, [], [], [], false, None)

  lemma {:induction false} ReachableIsGood(c: Session, steps: seq<ClientStep>, d: Session)
    requires Good(c) && Ran(c, steps) == Some(d)
    ensures Good(d)
  {
    if steps == [] {
    } else {
      hide Good, Enabled, After;
      var mid := Ran(c, steps[..|steps| - 1]).value;
      ReachableIsGood(c, steps[..|steps| - 1], mid);
      GoodStep(mid, steps[|steps| - 1]);
    }
  }

  /** Exactly-once resume: however often the connection breaks or the channel is
      dropped, what the client has consumed is the log so far, in order, with no gap
      and no duplicate. */
  lemma ExactlyOnce(steps: seq<ClientStep>, d: Session)
    requires Ran(NEW_SESSION, steps) == Some(d)
    ensures d.consumed <= d.run.log
    ensures forall i :: 0 <= i < |d.consumed| ==> d.consumed[i].seqNo == i + 1
  {
    hide Ran;
    assert Good(NEW_SESSION);
    ReachableIsGood(NEW_SESSION, steps, d);
  }

  /** A client that has read all its connection will deliver: nothing on the wire, nothing
      to replay, nothing queued. */
  ghost predicate Drained(c: Session) {
    && c.connected && c.wire == [] && c.pending == []
    && (c.channel.Some? ==> c.channel.value in c.run.channels && c.run.channels[c.channel.value].Queued() == 0)
  }

  /** Nothing is missing at the end: a client that has drained its connection has the whole
      log exactly if its channel was sent all of it, and so whenever the channel is open or
      the run was finished before it subscribed; only a dropped channel leaves it behind. */
  lemma DrainedHasAll(steps: seq<ClientStep>, d: Session)
    requires Ran(NEW_SESSION, steps) == Some(d) && Drained(d)
    ensures d.consumed == d.run.log <==>
      (d.channel.Some? ==> (var ch := d.run.channels[d.channel.value]; ch.start + |ch.sent| == |d.run.log|))
    ensures (d.channel.Some? ==> !d.run.channels[d.channel.value].closed) ==> d.consumed == d.run.log
  {
    hide Ran;
    assert Good(NEW_SESSION);
    ReachableIsGood(NEW_SESSION, steps, d);
    hide Valid;
    assert InHand(d) == d.consumed;
    assert d.run.log[..|d.run.log|] == d.run.log;
  }

  lemma {:induction false} RanJoin(c: Session, first: seq<ClientStep>, second: seq<ClientStep>)
    requires Ran(c, first).Some?
    ensures Ran(c, first + second) == Ran(Ran(c, first).value, second)
    decreases |second|
  {
    hide Enabled, After;
    if second == [] {
      assert first + second == first;
    } else {
      var n := |second| - 1;
      RanJoin(c, first, second[..n]);
      var all := first + second;
      assert all[..|all| - 1] == first + second[..n] && all[|all| - 1] == second[n];
    }
  }

  lemma OneStep(c: Session, step: ClientStep)
    requires Enabled(c, step)
    ensures Ran(c, [step]) == Some(After(c, step))
  {
    assert [step][..0] == [];
  }

  /** Reading out the replay. */
  lemma {:induction false} ReplayDelivers(c: Session) returns (steps: seq<ClientStep>, d: Session)
    requires Good(c) && c.connected
    ensures Ran(c, steps) == Some(d) && Good(d) && d.run == c.run
    ensures d.consumed == InHand(c)
    decreases |c.wire| + 2 * |c.pending|
  {
    hide Good, LastOf;
    if c.wire == [] && c.pending == [] {
      assert InHand(c) == c.consumed;
      return [], c;
    }
    hide Ran;
    var step := if c.wire != [] then Consume else SendReplay;
    var next := After(c, step);
    GoodStep(c, step);
    assert InHand(next) == InHand(c) by {
      if c.wire != [] {
        assert c.wire == [c.wire[0]] + next.wire;
      } else {
        assert c.pending == [c.pending[0]] + next.pending;
      }
    }
    OneStep(c, step);
    var rest;
    rest, d := ReplayDelivers(next);
    steps := [step] + rest;
    RanJoin(c, [step], rest);
  }

  /** From any reachable state, also after a slow channel was dropped, a client no more
      than a window behind can reconnect and read its way to the whole log. */
  lemma ReconnectCatchesUp(c: Session) returns (steps: seq<ClientStep>, d: Session)
    requires Good(c) && |c.run.log| - |c.consumed| <= BUFFER_LIMIT
    ensures Ran(c, steps) == Some(d) && d.run.log == c.run.log && d.consumed == c.run.log
  {
    hide Ran, LastOf, Replayed;
    var off, head := c, [Connect];
    if c.connected {
      off := After(c, Disconnect);
      OneStep(c, Disconnect);
      GoodDisconnect(c);
      head := [Disconnect] + head;
    }
    LastSeqIsCount(off);
    OneStep(off, Connect);
    GoodConnect(off);
    if c.connected {
      RanJoin(c, [Disconnect], [Connect]);
    }
    var on := After(off, Connect);
    assert Ran(c, head) == Some(on);
    var rest;
    rest, d := ReplayDelivers(on);
    RanJoin(c, head, rest);
    steps := head + rest;
  }
}

/** The registry of active runs and the handlers that attach to them
    (backend/internal/chat/generation_active_run.go).  Each step is one critical
    section; between two of them anything else may happen. */
module RunService {
  import opened Text
  import opened Events
  import opened ActiveRuns

  /** How far a request handler has come with its run. */
  datatype Phase =
    | Holding                            // has the run, has not subscribed yet
    | Attached(channel: Option<nat>)     // subscribed; reads its channel
    | Leaving                            // unsubscribed; detach not scheduled yet
    | Gone

  datatype Handler = Handler(run: nat, phase: Phase, launcher: bool)

  /** How far the goroutine that executes a run has come. */
  datatype Executor = NotStarted | Running | Finishing | Removed

  /** `callbacks` counts detach timers that expired and have not cancelled the run yet. */
  datatype Run = Run(conversation: nat, state: RunState, executor: Executor, callbacks: nat)

  datatype Service = Service(active: map<nat, nat>, runs: map<nat, Run>, handlers: map<nat, Handler>)

  const IDLE := Service(map[], map[], map[])

  datatype Act =
    | Launch(conversation: nat, run: nat, handler: nat)   // registerActiveStream
    | Join(conversation: nat, handler: nat)               // withActiveStream
    | Attach(handler: nat)                                // run.subscribe
    | Start(handler: nat)                                 // go func() { ... }
    | Detach(handler: nat)                                // unsubscribe
    | Schedule(handler: nat)                              // scheduleDetachCancellation
    | Publish(run: nat, event: StreamEvent)
    | Receive(run: nat, channel: nat)
    | Cancel(run: nat)                                    // CancelGeneration
    | Expire(run: nat)                                    // the detach timer fires
    | Callback(run: nat)                                  // its function cancels the run
    | Finish(run: nat)                                    // run.finish
    | Remove(run: nat)                                    // leaves the registry

  function WithState(s: Service, r: nat, state: RunState): Service
    requires r in s.runs
  {
    s.(runs := s.runs[r := s.runs[r].(state := state)])
  }

  function WithPhase(s: Service, h: nat, phase: Phase): Service
    requires h in s.handlers
  {
    s.(handlers := s.handlers[h := s.handlers[h].(phase := phase)])
  }

  /** A handler that leaves unsubscribes the channel it was given, if any. */
  function LeftState(state: RunState, channel: Option<nat>): RunState {
    if channel.Some? then Unsubscribed(state, channel.value) else state
  }

  /** An entry is removed only if it is still this run's. */
  function Unregistered(active: map<nat, nat>, conversation: nat, run: nat): map<nat, nat> {
    if conversation in active && active[conversation] == run then active - {conversation} else active
  }

  predicate AtPhase(s: Service, h: nat) {
    h in s.handlers && s.handlers[h].run in s.runs
  }

  predicate Enabled(s: Service, act: Act) {
    match act
    case Launch(c, r, h) => r !in s.runs && h !in s.handlers
    case Join(c, h) => h !in s.handlers
    case Attach(h) => AtPhase(s, h) && s.handlers[h].phase == Holding
    case Start(h) =>
      AtPhase(s, h) && s.handlers[h].launcher && s.handlers[h].phase.Attached?
      && s.runs[s.handlers[h].run].executor == NotStarted
    case Detach(h) =>
      AtPhase(s, h) && s.handlers[h].phase.Attached?
      && (s.handlers[h].launcher ==> s.runs[s.handlers[h].run].executor != NotStarted)
    case Schedule(h) => AtPhase(s, h) && s.handlers[h].phase == Leaving
    case Publish(r, _) => r in s.runs && s.runs[r].executor == Running
    case Receive(r, _) => r in s.runs
    case Cancel(r) => r in s.runs
    case Expire(r) => r in s.runs && s.runs[r].state.detachTimer
    case Callback(r) => r in s.runs && s.runs[r].callbacks > 0
    case Finish(r) => r in s.runs && s.runs[r].executor == Running
    case Remove(r) => r in s.runs && s.runs[r].executor == Finishing
  }

  function Acted(s: Service, act: Act): Service
    requires Enabled(s, act)
  {
    match act
    case Launch(c, r, h) =>
      if c in s.active then s   // ErrConversationBusy
      else s.(
        active := s.active[c := r],
        runs := s.runs[r := Run(c, NEW_RUN, NotStarted, 0)],
        handlers := s.handlers[h := Handler(r, Holding, true)])
    case Join(c, h) =>
      if c !in s.active then s  // ErrNoActiveStream
      else s.(handlers := s.handlers[h := Handler(s.active[c], Holding, false)])
    case Attach(h) =>
      var r := s.handlers[h].run;
      var state := s.runs[r].state;
      WithPhase(WithState(s, r, Subscribed(state)), h, Attached(SubscribedId(state)))
    case Start(h) =>
      var r := s.handlers[h].run;
      s.(runs := s.runs[r := s.runs[r].(executor := Running)])
    case Detach(h) =>
      var r := s.handlers[h].run;
      WithPhase(WithState(s, r, LeftState(s.runs[r].state, s.handlers[h].phase.channel)), h, Leaving)
    case Schedule(h) =>
      var r := s.handlers[h].run;
      WithPhase(WithState(s, r, DetachScheduled(s.runs[r].state)), h, Gone)
    case Publish(r, event) => WithState(s, r, Published(s.runs[r].state, event))
    case Receive(r, channel) => WithState(s, r, Taken(s.runs[r].state, channel))
    case Cancel(r) => WithState(s, r, CancelReasonSet(s.runs[r].state, ByUser))
    case Expire(r) => s.(runs := s.runs[r := s.runs[r].(callbacks := s.runs[r].callbacks + 1)])
    case Callback(r) =>
      s.(runs := s.runs[r := s.runs[r].(
        callbacks := s.runs[r].callbacks - 1,
        state := CancelReasonSet(s.runs[r].state, Detached))])
    case Finish(r) =>
      s.(runs := s.runs[r := s.runs[r].(executor := Finishing, state := FinishedRun(s.runs[r].state))])
    case Remove(r) =>
      var c := s.runs[r].conversation;
      s.(runs := s.runs[r := s.runs[r].(executor := Removed)],
         active := Unregistered(s.active, c, r))
  }

  // ------------------------------------------------------------- invariant

  /** A handler that has yet to execute its scheduleDetachCancellation for `r`. */
  ghost predicate Serves(s: Service, h: nat, r: nat) {
    h in s.handlers && s.handlers[h].run == r && s.handlers[h].phase != Gone
  }

  ghost predicate Listens(s: Service, h: nat, r: nat, channel: nat) {
    h in s.handlers && s.handlers[h].run == r && s.handlers[h].phase == Attached(Some(channel))
  }

  ghost predicate Launches(s: Service, h: nat, r: nat) {
    h in s.handlers && s.handlers[h].run == r && s.handlers[h].launcher
    && (s.handlers[h].phase == Holding || s.handlers[h].phase.Attached?)
  }

  ghost predicate Orphan(state: RunState) {
    !state.finished && state.subscribers == {} && !state.detachTimer
  }

  ghost predicate Registered(s: Service, r: nat, run: Run) {
    run.executor != Removed ==> run.conversation in s.active && s.active[run.conversation] == r
  }

  ghost predicate Heard(s: Service, r: nat, run: Run) {
    forall id :: id in run.state.subscribers ==> exists h :: Listens(s, h, r, id)
  }

  ghost predicate Attended(s: Service, r: nat, run: Run) {
    Orphan(run.state) ==> exists h :: Serves(s, h, r)
  }

  /** A run whose goroutine has not started has a launcher that will start it. */
  ghost predicate Startable(s: Service, r: nat, run: Run) {
    run.executor == NotStarted ==>
      && (exists h :: Launches(s, h, r))
      && forall h :: h in s.handlers && s.handlers[h].run == r && s.handlers[h].launcher ==> Launches(s, h, r)
  }

  ghost predicate Executes(run: Run) {
    && Valid(run.state)
    && (run.state.finished <==> run.executor == Finishing || run.executor == Removed)
  }

  ghost predicate RunOk(s: Service, r: nat, run: Run) {
    Executes(run) && Registered(s, r, run) && Heard(s, r, run) && Attended(s, r, run) && Startable(s, r, run)
  }

  ghost predicate Inv(s: Service) {
    && (forall r :: r in s.runs ==> RunOk(s, r, s.runs[r]))
    && (forall h :: h in s.handlers ==> s.handlers[h].run in s.runs)
    && (forall c :: c in s.active ==>
          && s.active[c] in s.runs
          && s.runs[s.active[c]].conversation == c
          && s.runs[s.active[c]].executor != Removed)
  }

  lemma RunIsOk(s: Service, r: nat)
    requires Inv(s) && r in s.runs
    ensures RunOk(s, r, s.runs[r])
  {
    hide RunOk;
  }

  ghost predicate AllFinished(s: Service, conversation: nat, runs: set<nat>)
    requires runs <= s.runs.Keys
  {
    forall r :: r in runs && s.runs[r].conversation == conversation ==> s.runs[r].state.finished
  }

  lemma RegisteredIsUnfinished(s: Service, conversation: nat)
    requires Inv(s)
    ensures forall r :: r in s.runs && s.runs[r].conversation == conversation && !s.runs[r].state.finished ==>
      conversation in s.active && s.active[conversation] == r
  {
    hide Valid, Heard, Attended, Startable;
    forall r | r in s.runs ensures RunOk(s, r, s.runs[r]) {
    }
  }

  /** The registry map, under its own mutex; each method is the critical section of one step. */
  class ActiveStreams {
    var active: map<nat, nat>

    constructor ()
      ensures active == IDLE.active
    {
      active := map[];
    }

    /** `registerActiveStream` */
    method Register(s: Service, conversation: nat, run: nat, handler: nat) returns (busy: bool)
      requires active == s.active && Enabled(s, Launch(conversation, run, handler))
      modifies this
      ensures busy <==> conversation in s.active
      ensures active == Acted(s, Launch(conversation, run, handler)).active
    {
      if conversation in active {
        return true;
      }
      active := active[conversation := run];
      return false;
    }

    /** `withActiveStream`, and the look-ups of CancelGeneration and waitForActiveRunCompletion:
        what is found is the one run of the conversation that may be unfinished, and finding
        none means that all its runs are finished. */
    method Find(s: Service, conversation: nat, handler: nat) returns (run: Option<nat>)
      requires active == s.active && Enabled(s, Join(conversation, handler))
      ensures run == None <==> Acted(s, Join(conversation, handler)) == s
      ensures run.Some? ==>
        Acted(s, Join(conversation, handler)).handlers[handler] == Handler(run.value, Holding, false)
      ensures Inv(s) ==> match run
        case None => AllFinished(s, conversation, s.runs.Keys)
        case Some(r) =>
          && r in s.runs && s.runs[r].conversation == conversation && s.runs[r].executor != Removed
          && AllFinished(s, conversation, s.runs.Keys - {r})
    {
      if Inv(s) {
        RegisteredIsUnfinished(s, conversation);
      }
      if conversation in active {
        assert Acted(s, Join(conversation, handler)).handlers[handler].run == active[conversation];
        return Some(active[conversation]);
      }
      return None;
    }

    /** The second half of `finishActiveStream`. */
    method Remove(s: Service, run: nat)
      requires active == s.active && Enabled(s, Act.Remove(run))
      modifies this
      ensures active == Acted(s, Act.Remove(run)).active
    {
      var conversation := s.runs[run].conversation;
      if conversation in active && active[conversation] == run {
        active := active - {conversation};
      }
    }
  }

  // --------------------------------------------- what one run's part depends on

  /** The handlers of `r` and its registry entry are the same in `s` and `t`. */
  ghost predicate SameView(s: Service, t: Service, r: nat) {
    && (forall h :: h in s.handlers && s.handlers[h].run == r ==> h in t.handlers && t.handlers[h] == s.handlers[h])
    && (forall h :: h in t.handlers && t.handlers[h].run == r ==> h in s.handlers && s.handlers[h] == t.handlers[h])
    && (forall c :: c in s.active && s.active[c] == r ==> c in t.active && t.active[c] == r)
  }

  lemma SameListeners(s: Service, t: Service, r: nat)
    requires SameView(s, t, r)
    ensures forall h, id :: Listens(s, h, r, id) == Listens(t, h, r, id)
    ensures forall h :: Serves(s, h, r) == Serves(t, h, r)
    ensures forall h :: Launches(s, h, r) == Launches(t, h, r)
  {
  }

  /** A run that a step does not touch stays in order. */
  lemma RunFrame(s: Service, t: Service, r: nat, run: Run)
    requires RunOk(s, r, run) && SameView(s, t, r)
    ensures RunOk(t, r, run)
  {
    SameListeners(s, t, r);
    hide Executes, Orphan, Listens, Serves, Launches;
    if run.executor == NotStarted {
      forall h | h in t.handlers && t.handlers[h].run == r && t.handlers[h].launcher ensures Launches(t, h, r) {
        assert h in s.handlers && s.handlers[h] == t.handlers[h];
      }
    }
  }

  lemma RunFrameSame(s: Service, t: Service, r: nat, run: Run)
    requires RunOk(s, r, run) && t.handlers == s.handlers && t.active == s.active
    ensures RunOk(t, r, run)
  {
    hide RunOk;
    RunFrame(s, t, r, run);
  }

  lemma SomeoneServes(s: Service, r: nat, run: Run)
    requires RunOk(s, r, run)
    ensures Orphan(run.state) || run.state.subscribers != {} ==> exists h :: Serves(s, h, r)
  {
    hide Executes, Registered, Startable, Orphan;
    if run.state.subscribers != {} {
      var id :| id in run.state.subscribers;
      var h :| Listens(s, h, r, id);
      assert Serves(s, h, r);
    }
  }

  /** What the run may become without its handlers noticing. */
  ghost predicate QuietChange(run: Run, run': Run) {
    && run'.conversation == run.conversation && Executes(run')
    && (run'.executor == Removed <==> run.executor == Removed)
    && run'.state.subscribers <= run.state.subscribers
    && (Orphan(run'.state) ==> Orphan(run.state) || run.state.subscribers != {})
    && (run'.executor == NotStarted ==> run.executor == NotStarted)
  }

  lemma QuietOk(s: Service, r: nat, run: Run, run': Run)
    requires RunOk(s, r, run) && QuietChange(run, run')
    ensures RunOk(s, r, run')
  {
    SomeoneServes(s, r, run);
    hide Executes, Listens, Serves, Launches, Orphan;
  }

  lemma QuietStays(run: Run, run': Run)
    requires QuietChange(run, run')
    ensures run'.conversation == run.conversation && (run'.executor == Removed <==> run.executor == Removed)
  {
  }

  /** A step of the run `r` itself. */
  lemma OwnStep(s: Service, r: nat, run': Run)
    requires Inv(s) && r in s.runs && QuietChange(s.runs[r], run')
    ensures Inv(s.(runs := s.runs[r := run']))
  {
    hide RunOk, QuietChange;
    var t := s.(runs := s.runs[r := run']);
    RunIsOk(s, r);
    QuietOk(s, r, s.runs[r], run');
    QuietStays(s.runs[r], run');
    forall q | q in t.runs ensures RunOk(t, q, t.runs[q]) {
      RunFrameSame(s, t, q, t.runs[q]);
    }
  }

  // --------------------------------------------------------- handler steps

  /** What a handler's step may do to its run and its own phase. */
  ghost predicate HandlerChange(run: Run, handler: Handler, state: RunState, phase: Phase) {
    && Valid(state) && state.finished == run.state.finished
    && (forall id :: id in state.subscribers ==>
          phase == Attached(Some(id)) || (id in run.state.subscribers && handler.phase != Attached(Some(id))))
    && (phase == Gone ==> !Orphan(state))
    && (run.executor == NotStarted && handler.launcher ==> phase == Holding || phase.Attached?)
  }

  lemma LaunchersStay(s: Service, t: Service, h: nat, run: Run, phase: Phase)
    requires h in s.handlers && Startable(s, s.handlers[h].run, run)
    requires run.executor == NotStarted && s.handlers[h].launcher ==> phase == Holding || phase.Attached?
    requires t.handlers == s.handlers[h := s.handlers[h].(phase := phase)]
    ensures Startable(t, s.handlers[h].run, run)
  {
    var r := s.handlers[h].run;
    if run.executor == NotStarted {
      var k :| Launches(s, k, r);
      assert Launches(t, k, r);
      forall j | j in t.handlers && t.handlers[j].run == r && t.handlers[j].launcher ensures Launches(t, j, r) {
        assert Launches(s, j, r);
      }
    }
  }

  lemma HandlerOk(s: Service, t: Service, h: nat, run: Run, state: RunState, phase: Phase)
    requires h in s.handlers && RunOk(s, s.handlers[h].run, run)
    requires HandlerChange(run, s.handlers[h], state, phase)
    requires t.active == s.active && t.handlers == s.handlers[h := s.handlers[h].(phase := phase)]
    ensures RunOk(t, s.handlers[h].run, run.(state := state))
  {
    var r := s.handlers[h].run;
    hide Valid;
    forall id | id in state.subscribers ensures exists k :: Listens(t, k, r, id) {
      if phase == Attached(Some(id)) {
        assert Listens(t, h, r, id);
      } else {
        var k :| Listens(s, k, r, id);
        assert Listens(t, k, r, id);
      }
    }
    if Orphan(state) {
      assert Serves(t, h, r);
    }
    LaunchersStay(s, t, h, run, phase);
  }

  /** A step of handler `h` and its run. */
  lemma HandlerStep(s: Service, h: nat, state: RunState, phase: Phase)
    requires Inv(s) && AtPhase(s, h)
    ensures HandlerChange(s.runs[s.handlers[h].run], s.handlers[h], state, phase) ==>
      Inv(WithPhase(WithState(s, s.handlers[h].run, state), h, phase))
  {
    hide RunOk, HandlerChange;
    var r := s.handlers[h].run;
    var t := WithPhase(WithState(s, r, state), h, phase);
    RunIsOk(s, r);
    if HandlerChange(s.runs[r], s.handlers[h], state, phase) {
      HandlerOk(s, t, h, s.runs[r], state, phase);
    }
    forall q | q in t.runs && q != r ensures RunOk(t, q, t.runs[q]) {
      RunFrame(s, t, q, t.runs[q]);
    }
  }

  // ------------------------------------------------------------ every step

  lemma NewRunOk(t: Service, c: nat, r: nat, h: nat)
    requires c in t.active && t.active[c] == r
    requires h in t.handlers && t.handlers[h] == Handler(r, Holding, true)
    requires forall k :: k in t.handlers && t.handlers[k].run == r ==> k == h
    ensures RunOk(t, r, Run(c, NEW_RUN, NotStarted, 0))
  {
    assert Serves(t, h, r) && Launches(t, h, r);
  }

  lemma LaunchKeeps(s: Service, c: nat, r: nat, h: nat)
    requires Inv(s) && r !in s.runs && h !in s.handlers && c !in s.active
    ensures Inv(s.(active := s.active[c := r],
                   runs := s.runs[r := Run(c, NEW_RUN, NotStarted, 0)],
                   handlers := s.handlers[h := Handler(r, Holding, true)]))
  {
    hide RunOk;
    var t := s.(active := s.active[c := r],
                runs := s.runs[r := Run(c, NEW_RUN, NotStarted, 0)],
                handlers := s.handlers[h := Handler(r, Holding, true)]);
    NewRunOk(t, c, r, h);
    forall q | q in t.runs && q != r ensures RunOk(t, q, t.runs[q]) {
      RunFrame(s, t, q, t.runs[q]);
    }
  }

  lemma JoinOk(s: Service, t: Service, h: nat, r: nat, run: Run)
    requires RunOk(s, r, run) && h !in s.handlers && t.active == s.active
    requires t.handlers == s.handlers[h := Handler(r, Holding, false)]
    ensures RunOk(t, r, run)
  {
    hide Executes, Orphan;
    forall id | id in run.state.subscribers ensures exists k :: Listens(t, k, r, id) {
      var k :| Listens(s, k, r, id);
      assert Listens(t, k, r, id);
    }
    assert Serves(t, h, r);
    if run.executor == NotStarted {
      var k :| Launches(s, k, r);
      assert Launches(t, k, r);
      forall j | j in t.handlers && t.handlers[j].run == r && t.handlers[j].launcher ensures Launches(t, j, r) {
        assert Launches(s, j, r);
      }
    }
  }

  lemma JoinKeeps(s: Service, c: nat, h: nat)
    requires Inv(s) && h !in s.handlers && c in s.active
    ensures Inv(s.(handlers := s.handlers[h := Handler(s.active[c], Holding, false)]))
  {
    hide RunOk;
    var r := s.active[c];
    var t := s.(handlers := s.handlers[h := Handler(r, Holding, false)]);
    RunIsOk(s, r);
    JoinOk(s, t, h, r, s.runs[r]);
    forall q | q in t.runs && q != r ensures RunOk(t, q, t.runs[q]) {
      RunFrame(s, t, q, t.runs[q]);
    }
  }

  lemma RemovedOk(s: Service, t: Service, r: nat, run: Run)
    requires RunOk(s, r, run) && run.executor == Finishing && t.handlers == s.handlers
    ensures RunOk(t, r, run.(executor := Removed))
  {
    assert run.state.finished && run.state.subscribers == {};
    hide Valid;
  }

  lemma RemoveKeeps(s: Service, r: nat)
    requires Inv(s) && r in s.runs && s.runs[r].executor == Finishing
    ensures var c := s.runs[r].conversation;
      Inv(s.(runs := s.runs[r := s.runs[r].(executor := Removed)],
             active := if c in s.active && s.active[c] == r then s.active - {c} else s.active))
  {
    hide RunOk;
    var c := s.runs[r].conversation;
    var t := s.(runs := s.runs[r := s.runs[r].(executor := Removed)],
                active := if c in s.active && s.active[c] == r then s.active - {c} else s.active);
    RunIsOk(s, r);
    RemovedOk(s, t, r, s.runs[r]);
    forall q | q in t.runs && q != r ensures RunOk(t, q, t.runs[q]) {
      RunFrame(s, t, q, t.runs[q]);
    }
  }

  lemma AttachChange(run: Run, handler: Handler)
    requires Valid(run.state) && handler.phase == Holding
    ensures HandlerChange(run, handler, Subscribed(run.state), Attached(SubscribedId(run.state)))
  {
    SubscribeKeepsValid(run.state);
    assert run.state.finished ==> run.state.subscribers == {};
    hide Valid;
  }

  lemma AttachKeeps(s: Service, h: nat)
    requires Inv(s) && AtPhase(s, h) && s.handlers[h].phase == Holding
    ensures var state := s.runs[s.handlers[h].run].state;
      Inv(WithPhase(WithState(s, s.handlers[h].run, Subscribed(state)), h, Attached(SubscribedId(state))))
  {
    hide HandlerChange, Valid, Registered, Heard, Attended, Startable, Subscribed;
    var run := s.runs[s.handlers[h].run];
    RunIsOk(s, s.handlers[h].run);
    hide Inv, RunOk;
    AttachChange(run, s.handlers[h]);
    HandlerStep(s, h, Subscribed(run.state), Attached(SubscribedId(run.state)));
  }

  lemma UnsubscribedOnly(state: RunState, id: nat)
    requires Valid(state)
    ensures Unsubscribed(state, id).subscribers == state.subscribers - {id}
    ensures Unsubscribed(state, id).finished == state.finished
  {
  }

  lemma DetachChange(run: Run, handler: Handler)
    requires Valid(run.state) && handler.phase.Attached?
    requires handler.launcher ==> run.executor != NotStarted
    ensures HandlerChange(run, handler, LeftState(run.state, handler.phase.channel), Leaving)
  {
    var channel := handler.phase.channel;
    if channel.Some? {
      StepKeepsValid(run.state, Unsubscribe(channel.value));
      UnsubscribedOnly(run.state, channel.value);
    }
    hide Valid, Unsubscribed;
  }

  lemma DetachKeeps(s: Service, h: nat)
    requires Inv(s) && AtPhase(s, h) && s.handlers[h].phase.Attached?
    requires s.handlers[h].launcher ==> s.runs[s.handlers[h].run].executor != NotStarted
    ensures var r := s.handlers[h].run;
      Inv(WithPhase(WithState(s, r, LeftState(s.runs[r].state, s.handlers[h].phase.channel)), h, Leaving))
  {
    hide HandlerChange, Valid, Registered, Heard, Attended, Startable, LeftState;
    var run := s.runs[s.handlers[h].run];
    RunIsOk(s, s.handlers[h].run);
    hide Inv, RunOk;
    DetachChange(run, s.handlers[h]);
    HandlerStep(s, h, LeftState(run.state, s.handlers[h].phase.channel), Leaving);
  }

  lemma ScheduleChange(run: Run, handler: Handler)
    requires Valid(run.state) && handler.phase == Leaving
    requires handler.launcher ==> run.executor != NotStarted
    ensures HandlerChange(run, handler, DetachScheduled(run.state), Gone)
  {
    StepKeepsValid(run.state, ScheduleDetach);
    hide Valid;
  }

  lemma LeavingHasStarted(s: Service, r: nat, run: Run, h: nat)
    requires RunOk(s, r, run)
    requires h in s.handlers && s.handlers[h].run == r && s.handlers[h].phase == Leaving && s.handlers[h].launcher
    ensures run.executor != NotStarted
  {
    hide Executes, Heard, Attended, Registered;
  }

  lemma ScheduleKeeps(s: Service, h: nat)
    requires Inv(s) && AtPhase(s, h) && s.handlers[h].phase == Leaving
    ensures Inv(WithPhase(WithState(s, s.handlers[h].run, DetachScheduled(s.runs[s.handlers[h].run].state)), h, Gone))
  {
    hide HandlerChange, Valid, Registered, Heard, Attended, Startable, DetachScheduled;
    var r := s.handlers[h].run;
    RunIsOk(s, r);
    hide Inv;
    if s.handlers[h].launcher {
      LeavingHasStarted(s, r, s.runs[r], h);
    }
    ScheduleChange(s.runs[r], s.handlers[h]);
    hide RunOk;
    HandlerStep(s, h, DetachScheduled(s.runs[r].state), Gone);
  }

  lemma QuietSteps(run: Run)
    requires Executes(run)
    ensures forall event :: QuietChange(run, run.(state := Published(run.state, event)))
    ensures forall channel :: QuietChange(run, run.(state := Taken(run.state, channel)))
    ensures forall callbacks: nat, reason ::
      QuietChange(run, run.(callbacks := callbacks, state := CancelReasonSet(run.state, reason)))
    ensures forall callbacks: nat :: QuietChange(run, run.(callbacks := callbacks))
    ensures run.executor == Running ==> QuietChange(run, run.(executor := Finishing, state := FinishedRun(run.state)))
    ensures run.executor == NotStarted ==> QuietChange(run, run.(executor := Running))
  {
    forall event ensures Valid(Published(run.state, event)) { PublishKeepsValid(run.state, event); }
    forall channel ensures Valid(Taken(run.state, channel)) { TakeKeepsValid(run.state, channel); }
    FinishKeepsValid(run.state);
    forall reason ensures Valid(CancelReasonSet(run.state, reason)) {
      StepKeepsValid(run.state, ActiveRuns.Step.Cancel(reason));
    }
    hide Valid;
  }

  /** Any change of one run that its handlers do not notice. */
  lemma QuietRun(s: Service, r: nat)
    requires Inv(s) && r in s.runs
    ensures var run := s.runs[r];
      && (forall event :: QuietChange(run, run.(state := Published(run.state, event))))
      && (forall channel :: QuietChange(run, run.(state := Taken(run.state, channel))))
      && (forall callbacks: nat, reason ::
            QuietChange(run, run.(callbacks := callbacks, state := CancelReasonSet(run.state, reason))))
      && (forall callbacks: nat :: QuietChange(run, run.(callbacks := callbacks)))
      && (run.executor == Running ==> QuietChange(run, run.(executor := Finishing, state := FinishedRun(run.state))))
      && (run.executor == NotStarted ==> QuietChange(run, run.(executor := Running)))
  {
    RunIsOk(s, r);
    hide Inv, QuietChange, Registered, Heard, Attended, Startable;
    assert Executes(s.runs[r]);
    hide Executes, RunOk;
    QuietSteps(s.runs[r]);
  }

  lemma PublishKeeps(s: Service, r: nat, event: StreamEvent)
    requires Inv(s) && r in s.runs
    ensures Inv(WithState(s, r, Published(s.runs[r].state, event)))
  {
    hide Inv, QuietChange;
    QuietRun(s, r);
    OwnStep(s, r, s.runs[r].(state := Published(s.runs[r].state, event)));
  }

  lemma ReceiveKeeps(s: Service, r: nat, channel: nat)
    requires Inv(s) && r in s.runs
    ensures Inv(WithState(s, r, Taken(s.runs[r].state, channel)))
  {
    hide Inv, QuietChange;
    QuietRun(s, r);
    OwnStep(s, r, s.runs[r].(state := Taken(s.runs[r].state, channel)));
  }

  lemma CancelKeeps(s: Service, r: nat, reason: CancelReason, callbacks: nat)
    requires Inv(s) && r in s.runs
    ensures var run := s.runs[r].(callbacks := callbacks, state := CancelReasonSet(s.runs[r].state, reason));
      Inv(s.(runs := s.runs[r := run]))
  {
    hide Inv, QuietChange, CancelReasonSet;
    QuietRun(s, r);
    OwnStep(s, r, s.runs[r].(callbacks := callbacks, state := CancelReasonSet(s.runs[r].state, reason)));
  }

  lemma ExpireKeeps(s: Service, r: nat, callbacks: nat)
    requires Inv(s) && r in s.runs
    ensures Inv(s.(runs := s.runs[r := s.runs[r].(callbacks := callbacks)]))
  {
    hide Inv, QuietChange;
    QuietRun(s, r);
    OwnStep(s, r, s.runs[r].(callbacks := callbacks));
  }

  lemma FinishKeeps(s: Service, r: nat)
    requires Inv(s) && r in s.runs && s.runs[r].executor == Running
    ensures Inv(s.(runs := s.runs[r := s.runs[r].(executor := Finishing, state := FinishedRun(s.runs[r].state))]))
  {
    hide Inv, QuietChange;
    QuietRun(s, r);
    OwnStep(s, r, s.runs[r].(executor := Finishing, state := FinishedRun(s.runs[r].state)));
  }

  lemma StartKeeps(s: Service, r: nat)
    requires Inv(s) && r in s.runs && s.runs[r].executor == NotStarted
    ensures Inv(s.(runs := s.runs[r := s.runs[r].(executor := Running)]))
  {
    hide Inv, QuietChange;
    QuietRun(s, r);
    OwnStep(s, r, s.runs[r].(executor := Running));
  }

  lemma ActKeepsInv(s: Service, act: Act)
    requires Inv(s) && Enabled(s, act)
    ensures Inv(Acted(s, act))
  {
    hide Inv;
    match act
    case Launch(c, r, h) => if c !in s.active { LaunchKeeps(s, c, r, h); }
    case Join(c, h) => if c in s.active { JoinKeeps(s, c, h); }
    case Attach(h) => AttachKeeps(s, h);
    case Start(h) => StartKeeps(s, s.handlers[h].run);
    case Detach(h) => DetachKeeps(s, h);
    case Schedule(h) => ScheduleKeeps(s, h);
    case Publish(r, event) => PublishKeeps(s, r, event);
    case Receive(r, channel) => ReceiveKeeps(s, r, channel);
    case Cancel(r) =>
      CancelKeeps(s, r, ByUser, s.runs[r].callbacks);
      assert s.runs[r].(callbacks := s.runs[r].callbacks) == s.runs[r];
    case Expire(r) => ExpireKeeps(s, r, s.runs[r].callbacks + 1);
    case Callback(r) => CancelKeeps(s, r, Detached, s.runs[r].callbacks - 1);
    case Finish(r) => FinishKeeps(s, r);
    case Remove(r) => RemoveKeeps(s, r);
  }

  /** The states reachable by any interleaving. */
  function Ran(acts: seq<Act>): Option<Service> {
    if acts == [] then Some(IDLE)
    else
      var mid := Ran(acts[..|acts| - 1]);
      var last := acts[|acts| - 1];
      if mid.Some? && Enabled(mid.value, last) then Some(Acted(mid.value, last)) else None
  }

  lemma {:induction false} ReachableInv(acts: seq<Act>)
    requires Ran(acts).Some?
    ensures Inv(Ran(acts).value)
  {
    if acts == [] {
    } else {
      hide Inv, Enabled, Acted;
      ReachableInv(acts[..|acts| - 1]);
      ActKeepsInv(Ran(acts[..|acts| - 1]).value, acts[|acts| - 1]);
    }
  }

  // ------------------------------------------------------ what an act changes

  /** The run that an act is about, if it exists already. */
  function RunOf(s: Service, act: Act): Option<nat> {
    match act
    case Launch(_, _, _) => None
    case Join(_, _) => None
    case Attach(h) => if h in s.handlers then Some(s.handlers[h].run) else None
    case Start(h) => if h in s.handlers then Some(s.handlers[h].run) else None
    case Detach(h) => if h in s.handlers then Some(s.handlers[h].run) else None
    case Schedule(h) => if h in s.handlers then Some(s.handlers[h].run) else None
    case _ => Some(act.run)
  }

  /** An act of one run leaves every other run, and the registry entries of the other
      conversations, as they are; and no run ever changes its conversation. */
  lemma OtherRunsUntouched(s: Service, act: Act, r: nat)
    requires Enabled(s, act) && r in s.runs
    ensures var t := Acted(s, act);
      && r in t.runs && t.runs[r].conversation == s.runs[r].conversation
      && (RunOf(s, act) != Some(r) ==> t.runs[r] == s.runs[r])
      && (forall c :: c in s.active && !act.Launch? && !(act.Remove? && s.active[c] == act.run) ==>
            c in t.active && t.active[c] == s.active[c])
  {
    hide Subscribed, Published, Taken, DetachScheduled, CancelReasonSet, FinishedRun, LeftState;
  }

  lemma RanNext(acts: seq<Act>, s: Service, act: Act)
    requires Ran(acts) == Some(s) && Enabled(s, act)
    ensures Ran(acts + [act]) == Some(Acted(s, act))
  {
    hide Enabled, Acted;
    assert (acts + [act])[..|acts|] == acts;
  }

  /** A generation request for an idle conversation makes a new run, enters it in the registry
      and gives it to its handler. */
  lemma LaunchEnters(s: Service, c: nat, r: nat, h: nat)
    requires Enabled(s, Launch(c, r, h)) && c !in s.active
    ensures var t := Acted(s, Launch(c, r, h));
      && t.active == s.active[c := r]
      && t.runs.Keys == s.runs.Keys + {r} && t.runs[r].conversation == c && t.runs[r].executor == NotStarted
      && t.runs[r].state.log == [] && !t.runs[r].state.finished && t.runs[r].state.cancelReason == NoReason
      && t.handlers == s.handlers[h := Handler(r, Holding, true)]
  {
  }

  /** The acts of a request whose client reads to the end, but for what is published. */
  function Opening(c: nat, r: nat, h: nat): seq<Act> {
    [Launch(c, r, h)] + [Attach(h)] + [Start(h)]
  }

  function Closing(r: nat, h: nat): seq<Act> {
    [Act.Finish(r)] + [Remove(r)] + [Detach(h)] + [Schedule(h)]
  }

  function Publishing(r: nat, events: seq<StreamEvent>): seq<Act> {
    if events == [] then []
    else Publishing(r, events[..|events| - 1]) + [Act.Publish(r, events[|events| - 1])]
  }

  /** A run that is being executed, with its launcher attached. */
  ghost predicate InProgress(s: Service, active: map<nat, nat>, c: nat, r: nat, h: nat) {
    && s.active == active[c := r] && r in s.runs && h in s.handlers
    && s.runs[r].conversation == c && s.runs[r].executor == Running && !s.runs[r].state.finished
    && s.runs[r].state.cancelReason == NoReason && s.runs[r].state.nextSeq == |s.runs[r].state.log|
    && s.handlers[h].run == r && s.handlers[h].phase.Attached?
  }

  /** The published events with their numbers. */
  ghost predicate IsLogOf(log: seq<StreamEvent>, events: seq<StreamEvent>) {
    |log| == |events| && forall i :: 0 <= i < |events| ==> log[i] == events[i].(seqNo := i + 1)
  }

  lemma Opened(acts: seq<Act>, s: Service, c: nat, r: nat, h: nat) returns (t: Service)
    requires Ran(acts) == Some(s) && c !in s.active && r !in s.runs && h !in s.handlers
    ensures Ran(acts + Opening(c, r, h)) == Some(t) && InProgress(t, s.active, c, r, h) && t.runs[r].state.log == []
  {
    var s1 := Acted(s, Launch(c, r, h));
    RanNext(acts, s, Launch(c, r, h));
    var a1 := acts + [Launch(c, r, h)];
    var s2 := Acted(s1, Attach(h));
    RanNext(a1, s1, Attach(h));
    t := Acted(s2, Act.Start(h));
    RanNext(a1 + [Attach(h)], s2, Act.Start(h));
    assert acts + Opening(c, r, h) == a1 + [Attach(h)] + [Act.Start(h)];
  }

  lemma PublishedInProgress(s: Service, active: map<nat, nat>, c: nat, r: nat, h: nat, event: StreamEvent)
    requires InProgress(s, active, c, r, h)
    ensures Enabled(s, Act.Publish(r, event))
    ensures var t := Acted(s, Act.Publish(r, event));
      && InProgress(t, active, c, r, h)
      && t.runs[r].state.log == s.runs[r].state.log + [event.(seqNo := |s.runs[r].state.log| + 1)]
  {
  }

  lemma InProgressHas(s: Service, active: map<nat, nat>, c: nat, r: nat, h: nat)
    requires InProgress(s, active, c, r, h)
    ensures r in s.runs
  {
  }

  lemma {:induction false} PublishedAll(acts: seq<Act>, s: Service, active: map<nat, nat>, c: nat, r: nat, h: nat,
                                        events: seq<StreamEvent>) returns (t: Service)
    requires Ran(acts) == Some(s) && InProgress(s, active, c, r, h) && s.runs[r].state.log == []
    ensures Ran(acts + Publishing(r, events)) == Some(t) && InProgress(t, active, c, r, h)
    ensures IsLogOf(t.runs[r].state.log, events)
  {
    hide Ran, InProgress, Acted, Enabled;
    if events == [] {
      t := s;
      assert acts + [] == acts;
      assert r in s.runs by { InProgressHas(s, active, c, r, h); }
    } else {
      var n := |events| - 1;
      var before := PublishedAll(acts, s, active, c, r, h, events[..n]);
      var last := Act.Publish(r, events[n]);
      InProgressHas(before, active, c, r, h);
      PublishedInProgress(before, active, c, r, h, events[n]);
      t := Acted(before, last);
      RanNext(acts + Publishing(r, events[..n]), before, last);
      Regroup(acts, Publishing(r, events[..n]), [last]);
      InProgressHas(t, active, c, r, h);
    }
  }

  lemma ClosedDown(acts: seq<Act>, s: Service, active: map<nat, nat>, c: nat, r: nat, h: nat) returns (t: Service)
    requires Ran(acts) == Some(s) && InProgress(s, active, c, r, h) && c !in active
    ensures Ran(acts + Closing(r, h)) == Some(t)
    ensures t.active == active && r in t.runs && h in t.handlers && t.handlers[h].phase == Gone
    ensures t.runs[r].state.finished && t.runs[r].state.log == s.runs[r].state.log && t.runs[r].executor == Removed
  {
    var s1 := Acted(s, Act.Finish(r));
    RanNext(acts, s, Act.Finish(r));
    var a1 := acts + [Act.Finish(r)];
    var s2 := Acted(s1, Remove(r));
    RanNext(a1, s1, Remove(r));
    var a2 := a1 + [Remove(r)];
    var s3 := Acted(s2, Detach(h));
    RanNext(a2, s2, Detach(h));
    t := Acted(s3, Schedule(h));
    RanNext(a2 + [Detach(h)], s3, Schedule(h));
    assert acts + Closing(r, h) == a2 + [Detach(h)] + [Schedule(h)];
  }

  /** From every reachable state a request for an idle conversation can run to its end:
      all events are published in order, and the registry is as it was. */
  lemma RequestCompletes(acts: seq<Act>, c: nat, r: nat, h: nat, events: seq<StreamEvent>) returns (t: Service)
    requires Ran(acts).Some?
    requires c !in Ran(acts).value.active && r !in Ran(acts).value.runs && h !in Ran(acts).value.handlers
    ensures Ran(acts + Opening(c, r, h) + Publishing(r, events) + Closing(r, h)) == Some(t)
    ensures t.active == Ran(acts).value.active && r in t.runs && h in t.handlers && t.handlers[h].phase == Gone
    ensures t.runs[r].state.finished && IsLogOf(t.runs[r].state.log, events)
  {
    hide Ran, Opening, Closing, Publishing, InProgress;
    var s := Ran(acts).value;
    var started := Opened(acts, s, c, r, h);
    var published := PublishedAll(acts + Opening(c, r, h), started, s.active, c, r, h, events);
    t := ClosedDown(acts + Opening(c, r, h) + Publishing(r, events), published, s.active, c, r, h);
  }

  // ------------------------------------------------ each run is a run by itself

  /** What an act does to the run it is about. */
  function StepOf(s: Service, act: Act): seq<Step> {
    match act
    case Attach(_) => [Subscribe]
    case Detach(h) =>
      if h in s.handlers && s.handlers[h].phase.Attached? && s.handlers[h].phase.channel.Some?
      then [Unsubscribe(s.handlers[h].phase.channel.value)] else []
    case Schedule(_) => [ScheduleDetach]
    case Publish(_, event) => [Step.Publish(event)]
    case Receive(_, channel) => [Take(channel)]
    case Cancel(_) => [Step.Cancel(ByUser)]
    case Callback(_) => [Step.Cancel(Detached)]
    case Finish(_) => [Step.Finish]
    case _ => []
  }

  /** The steps that the acts are for one run. */
  function StepsOf(acts: seq<Act>, r: nat): seq<Step> {
    if acts == [] then []
    else
      var n := |acts| - 1;
      var mid := Ran(acts[..n]);
      StepsOf(acts[..n], r) +
        (if mid.Some? && RunOf(mid.value, acts[n]) == Some(r) then StepOf(mid.value, acts[n]) else [])
  }

  lemma StepMeans(s: Service, act: Act, r: nat)
    requires Enabled(s, act)
    ensures r !in s.runs ==> RunOf(s, act) != Some(r)
    ensures r !in s.runs && r in Acted(s, act).runs ==> Acted(s, act).runs[r].state == NEW_RUN
    ensures r in s.runs ==>
      && r in Acted(s, act).runs
      && Acted(s, act).runs[r].state ==
           if RunOf(s, act) == Some(r) && StepOf(s, act) != [] then Next(s.runs[r].state, StepOf(s, act)[0])
           else s.runs[r].state
  {
    hide Subscribed, Published, Taken, DetachScheduled, CancelReasonSet, FinishedRun, Unsubscribed;
  }

  lemma RunMore(steps: seq<Step>, step: Step)
    ensures RunSteps(NEW_RUN, steps + [step]) == Next(RunSteps(NEW_RUN, steps), step)
    ensures steps + [] == steps
  {
    hide Next;
    assert (steps + [step])[..|steps|] == steps;
  }

  lemma StepIsOne(s: Service, act: Act)
    ensures |StepOf(s, act)| <= 1
  {
  }

  /** Whatever the handlers, the timers and the other runs do: the state of each run is that of
      a run by itself, after just those acts that were about it. */
  lemma {:induction false} EachRunIsARun(acts: seq<Act>, r: nat)
    requires Ran(acts).Some?
    ensures if r in Ran(acts).value.runs then Ran(acts).value.runs[r].state == RunSteps(NEW_RUN, StepsOf(acts, r))
            else StepsOf(acts, r) == []
  {
    hide Enabled, Acted, RunOf, StepOf, Next;
    if acts == [] {
    } else {
      var n := |acts| - 1;
      var mid, last := Ran(acts[..n]).value, acts[n];
      EachRunIsARun(acts[..n], r);
      StepMeans(mid, last, r);
      StepIsOne(mid, last);
      var steps := StepsOf(acts[..n], r);
      RunMore(steps, if StepOf(mid, last) == [] then Subscribe else StepOf(mid, last)[0]);
      assert StepOf(mid, last) != [] ==> StepOf(mid, last) == [StepOf(mid, last)[0]];
    }
  }

  // ------------------------------------------------------ who cancelled a run

  /** `act` was done, and not `other` before it. */
  ghost predicate Before(acts: seq<Act>, act: Act, other: Act) {
    exists i :: 0 <= i < |acts| && acts[i] == act && forall j :: 0 <= j < i ==> acts[j] != other
  }

  lemma BeforeMore(acts: seq<Act>, last: Act, act: Act, other: Act)
    requires act != other
    ensures Before(acts + [last], act, other) <==>
      Before(acts, act, other) || (last == act && other !in acts)
  {
    var all, n := acts + [last], |acts|;
    assert forall j :: 0 <= j < n ==> all[j] == acts[j];
    if i :| 0 <= i < n && acts[i] == act && forall j :: 0 <= j < i ==> acts[j] != other {
      assert all[i] == act;
    } else if last == act && other !in acts {
      assert all[n] == act && forall j :: 0 <= j < n ==> all[j] in acts;
    }
    if i :| 0 <= i <= n && all[i] == act && forall j :: 0 <= j < i ==> all[j] != other {
      assert i < n ==> acts[i] == act;
    }
  }

  lemma OnlyTwoCancel(s: Service, act: Act, r: nat)
    requires Enabled(s, act) && r in s.runs
    ensures var before, t := s.runs[r].state.cancelReason, Acted(s, act);
      r in t.runs && t.runs[r].state.cancelReason ==
        if before != NoReason then before
        else if act == Act.Cancel(r) then ByUser else if act == Callback(r) then Detached else NoReason
  {
    hide LastOf, DeliveredAll, ClosedAll;
  }

  lemma NewIsUncancelled(s: Service, act: Act, r: nat)
    requires Enabled(s, act) && r !in s.runs && r in Acted(s, act).runs
    ensures Acted(s, act).runs[r].state.cancelReason == NoReason
  {
  }

  lemma {:induction false} NotYetActedOn(acts: seq<Act>, r: nat)
    requires Ran(acts).Some? && r !in Ran(acts).value.runs
    ensures Act.Cancel(r) !in acts && Callback(r) !in acts
  {
    if acts == [] {
    } else {
      var n := |acts| - 1;
      var mid := Ran(acts[..n]).value;
      if r in mid.runs {
        OtherRunsUntouched(mid, acts[n], r);
      } else {
        NotYetActedOn(acts[..n], r);
        assert acts == acts[..n] + [acts[n]];
      }
    }
  }

  lemma BeforeIs(acts: seq<Act>, act: Act, other: Act)
    ensures Before(acts, act, other) ==> act in acts
  {
  }

  lemma NotYetEnabled(s: Service, act: Act, r: nat)
    requires Enabled(s, act) && r !in s.runs
    ensures act != Act.Cancel(r) && act != Callback(r)
  {
  }

  /** Who comes first decides: the user's cancellation or the expired timer, in every later
      state; and a run that neither reached has no reason. */
  lemma {:induction false} FirstCancelDecides(acts: seq<Act>, r: nat)
    requires Ran(acts).Some? && r in Ran(acts).value.runs
    ensures var reason := Ran(acts).value.runs[r].state.cancelReason;
      && (reason == ByUser <==> Before(acts, Act.Cancel(r), Callback(r)))
      && (reason == Detached <==> Before(acts, Callback(r), Act.Cancel(r)))
      && (reason == NoReason <==> Act.Cancel(r) !in acts && Callback(r) !in acts)
  {
    hide Enabled, Acted;
    if acts == [] {
    } else {
      var n := |acts| - 1;
      var mid, last := Ran(acts[..n]).value, acts[n];
      assert acts == acts[..n] + [last];
      BeforeMore(acts[..n], last, Act.Cancel(r), Callback(r));
      BeforeMore(acts[..n], last, Callback(r), Act.Cancel(r));
      BeforeIs(acts[..n], Act.Cancel(r), Callback(r));
      BeforeIs(acts[..n], Callback(r), Act.Cancel(r));
      hide Before;
      if r in mid.runs {
        FirstCancelDecides(acts[..n], r);
        OnlyTwoCancel(mid, last, r);
      } else {
        NotYetActedOn(acts[..n], r);
        NewIsUncancelled(mid, last, r);
        NotYetEnabled(mid, last, r);
      }
    }
  }

  /** When the timer of a run has expired, its callback can cancel the run as detached. */
  lemma ExpiryCancels(acts: seq<Act>, r: nat)
    requires Ran(acts).Some? && r in Ran(acts).value.runs && Ran(acts).value.runs[r].state.detachTimer
    requires Ran(acts).value.runs[r].state.cancelReason == NoReason
    ensures var t := Ran(acts + [Expire(r)] + [Callback(r)]);
      t.Some? && r in t.value.runs && t.value.runs[r].state.cancelReason == Detached
  {
    var s := Ran(acts).value;
    RanNext(acts, s, Expire(r));
    RanNext(acts + [Expire(r)], Acted(s, Expire(r)), Callback(r));
    hide Ran;
  }

  /** No orphans: in every interleaving, a run that is not finished, has no subscriber
      and no detach timer still has a handler that will schedule one; so once all its
      handlers are gone its timer is set. */
  lemma NoOrphanRuns(acts: seq<Act>, r: nat)
    requires Ran(acts).Some? && r in Ran(acts).value.runs
    ensures var s := Ran(acts).value;
      && (Orphan(s.runs[r].state) ==> exists h :: Serves(s, h, r))
      && (!s.runs[r].state.finished && (forall h :: !Serves(s, h, r)) ==>
            s.runs[r].state.subscribers == {} && s.runs[r].state.detachTimer)
  {
    hide Ran, Valid;
    ReachableInv(acts);
    var s := Ran(acts).value;
    RunIsOk(s, r);
    if !s.runs[r].state.finished && s.runs[r].state.subscribers != {} {
      var id :| id in s.runs[r].state.subscribers;
      var h :| Listens(s, h, r, id);
      assert Serves(s, h, r);
    }
  }

  /** A detach timer is only ever set on an unfinished run that nobody listens to. */
  lemma TimerMeansUnattended(acts: seq<Act>, r: nat)
    requires Ran(acts).Some? && r in Ran(acts).value.runs && Ran(acts).value.runs[r].state.detachTimer
    ensures var s := Ran(acts).value;
      !s.runs[r].state.finished && forall h, id :: Listens(s, h, r, id) ==> id !in s.runs[r].state.subscribers
  {
    hide Ran;
    ReachableInv(acts);
    RunIsOk(Ran(acts).value, r);
  }

  /** A conversation has at most one unfinished run, and the registry holds it. */
  lemma OneUnfinishedRun(acts: seq<Act>, r: nat, q: nat)
    requires Ran(acts).Some? && r in Ran(acts).value.runs && q in Ran(acts).value.runs
    ensures var s := Ran(acts).value;
      var c := s.runs[r].conversation;
      && (!s.runs[r].state.finished ==> c in s.active && s.active[c] == r)
      && (!s.runs[r].state.finished && !s.runs[q].state.finished && s.runs[q].conversation == c ==> q == r)
  {
    hide Ran, Valid;
    ReachableInv(acts);
    var s := Ran(acts).value;
    RunIsOk(s, r);
    RunIsOk(s, q);
  }
}

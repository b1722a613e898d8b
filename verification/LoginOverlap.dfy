/** Login attempts for one key that overlap (backend/internal/auth/handler.go:67-97): the
    limiter's mutex is free between the check and the recording, so other attempts can be
    checked and recorded in between. */
module LoginOverlap {
  import opened Text
  import opened LoginRateLimit

  /** The limiter's entry for the key, the times of all recorded failures, how many attempts
      have passed the check and are not over yet, and the time of the last step. */
  datatype State = State(entry: Entry, failures: seq<int>, inFlight: nat, clock: int)

  /** `Allow`, `RecordFailure`, and the end of an attempt that records nothing.  A successful
      login, which resets the key, is not part of these runs. */
  datatype Step =
    | Check(at: int)
    | Record(at: int)
    | GiveUp(at: int)

  /** Steps in the order of the clock, with never more than `k` attempts in flight. */
  predicate Enabled(s: State, step: Step, k: nat) {
    && s.clock <= step.at
    && (step.Check? && !Blocks(s.entry, step.at) ==> s.inFlight < k)
    && (!step.Check? ==> s.inFlight > 0)
  }

  function After(s: State, step: Step): State
    requires step.Check? || s.inFlight > 0
  {
    match step
    case Check(at) =>
      State(AfterAllow(s.entry, at), s.failures, if Blocks(s.entry, at) then s.inFlight else s.inFlight + 1, at)
    case Record(at) => State(AfterFailure(s.entry, at), s.failures + [at], s.inFlight - 1, at)
    case GiveUp(at) => s.(inFlight := s.inFlight - 1, clock := at)
  }

  function Ran(s: State, steps: seq<Step>, k: nat): Option<State> {
    if steps == [] then Some(s)
    else
      var mid := Ran(s, steps[..|steps| - 1], k);
      var last := steps[|steps| - 1];
      if mid.Some? && Enabled(mid.value, last, k) then Some(After(mid.value, last)) else None
  }

  function Start(clock: int): State {
    State(None, [], 0, clock)
  }

  // ------------------------------------------------------------ invariant

  /** How many failures lie at or behind `start`. */
  function Burst(s: State, start: nat): int {
    |s.failures| - start
  }

  /** The last failure is a window ago. */
  ghost predicate Quiet(s: State) {
    s.failures != [] && s.clock >= s.failures[|s.failures| - 1] + WINDOW
  }

  /** The failures at `start` and behind are those of the entry's epoch.  From five on nothing
      passes the check, and only what is in flight is recorded. */
  ghost predicate Counting(s: State, start: nat, k: nat)
    requires start < |s.failures| && s.entry.Some?
  {
    && s.entry.value.firstFailed == Some(s.failures[start])
    && s.entry.value.attempts == Burst(s, start)
    && (Burst(s, start) >= MAX_ATTEMPTS ==> Burst(s, start) + s.inFlight <= k + 4 || Quiet(s))
  }

  /** The entry's epoch goes on after its block has ended, which is possible only at the very
      instant at which both end: what is recorded then is in flight together. */
  ghost predicate Resumed(s: State, start: nat, k: nat)
    requires start < |s.failures| && s.entry.Some?
  {
    && start > 0 && s.failures[start] - s.failures[start - 1] >= WINDOW
    && s.entry.value.attempts >= MAX_ATTEMPTS
    && s.entry.value.firstFailed.Some? && s.entry.value.firstFailed.value <= s.failures[start]
    && (Burst(s, start) + s.inFlight <= k || Quiet(s))
  }

  ghost predicate EntryIs(s: State, start: nat, k: nat)
    requires start < |s.failures|
  {
    match s.entry
    case None => Quiet(s) || (s.clock - s.failures[start] > WINDOW && Burst(s, start) < MAX_ATTEMPTS)
    case Some(e) =>
      && e.blockedTill ==
           (if e.attempts >= MAX_ATTEMPTS then Some(s.failures[|s.failures| - 1] + BLOCK_WINDOW) else None)
      && (Counting(s, start, k) || Resumed(s, start, k))
  }

  ghost predicate Spread(failures: seq<int>, start: nat, clock: int, k: nat) {
    && Sorted(failures) && (forall i :: 0 <= i < |failures| ==> failures[i] <= clock)
    && Apart(failures, 2 * k + 6)
    && (k + 3 <= start < |failures| ==> failures[start] - failures[start - (k + 3)] >= WINDOW)
  }

  ghost predicate Tracked(s: State, start: nat, k: nat) {
    && s.inFlight <= k
    && Spread(s.failures, start, s.clock, k)
    && (s.failures == [] ==> s.entry == None)
    && (s.failures != [] ==> start < |s.failures| && EntryIs(s, start, k))
  }

  lemma CheckTracked(s: State, start: nat, at: int, k: nat)
    requires Tracked(s, start, k) && Enabled(s, Check(at), k)
    ensures Tracked(After(s, Check(at)), start, k)
  {
    hide Sorted, Apart;
  }

  lemma GiveUpTracked(s: State, start: nat, at: int, k: nat)
    requires Tracked(s, start, k) && Enabled(s, GiveUp(at), k)
    ensures Tracked(After(s, GiveUp(at)), start, k)
  {
    hide Sorted, Apart;
  }

  // ----------------------------------------------------------- recording

  /** What a failure at `at` must be a window away from. */
  ghost predicate Far(failures: seq<int>, at: int, steps: nat) {
    |failures| >= steps > 0 ==> at - failures[|failures| - steps] >= WINDOW
  }

  lemma FartherBack(failures: seq<int>, at: int, near: nat, far: nat)
    requires Sorted(failures) && Far(failures, at, near) && 0 < near <= far
    ensures Far(failures, at, far)
  {
  }

  lemma SpreadNext(failures: seq<int>, start: nat, clock: int, at: int, k: nat, next: nat)
    requires Spread(failures, start, clock, k) && clock <= at && Far(failures, at, 2 * k + 6)
    requires next == start < |failures| || (next == |failures| && Far(failures, at, k + 3))
    ensures Spread(failures + [at], next, at, k)
  {
    ApartNext(failures, at, 2 * k + 6);
    hide Apart;
  }

  /** The failure opens an epoch, and few of the last one's are within a window. */
  lemma OpeningIsFar(s: State, start: nat, at: int, k: nat)
    requires Tracked(s, start, k) && Enabled(s, Record(at), k) && (s.entry == None || Expired(s.entry, at))
    ensures Far(s.failures, at, k + 3) && Far(s.failures, at, 2 * k + 6)
  {
    hide Apart;
    var f, n := s.failures, |s.failures|;
    if n >= k + 3 {
      if f[n - 1] <= at - WINDOW {
        assert f[n - (k + 3)] <= f[n - 1];
      } else if s.entry.Some? && Resumed(s, start, k) {
        assert f[n - (k + 3)] <= f[start - 1];
      } else {
        assert f[n - (k + 3)] <= f[start];
      }
    }
    FartherBack(f, at, k + 3, 2 * k + 6);
  }

  /** The failure counts in an epoch that has begun. */
  lemma CountingIsFar(s: State, start: nat, at: int, k: nat)
    requires Tracked(s, start, k) && Enabled(s, Record(at), k) && s.entry.Some?
    ensures Far(s.failures, at, 2 * k + 6)
  {
    hide Apart;
    var f, n := s.failures, |s.failures|;
    if n >= 2 * k + 6 {
      var i := n - (2 * k + 6);
      if f[n - 1] <= at - WINDOW {
        assert f[i] <= f[n - 1];
      } else if Resumed(s, start, k) {
        assert f[i] <= f[start - 1];
      } else {
        assert f[i] <= f[start - (k + 3)];
      }
    }
  }

  /** Where the burst begins that a failure at `at` belongs to. */
  ghost function BurstAfter(s: State, start: nat, at: int): nat {
    if s.entry == None || Expired(s.entry, at)
       || (s.entry.value.attempts >= MAX_ATTEMPTS && Quiet(s.(clock := at)))
    then |s.failures| else start
  }

  lemma OpeningTracked(s: State, start: nat, at: int, k: nat)
    requires Tracked(s, start, k) && Enabled(s, Record(at), k) && (s.entry == None || Expired(s.entry, at))
    ensures Tracked(After(s, Record(at)), |s.failures|, k)
  {
    OpeningIsFar(s, start, at, k);
    hide Far, Spread;
    SpreadNext(s.failures, start, s.clock, at, k, |s.failures|);
  }

  lemma ResumingTracked(s: State, start: nat, at: int, k: nat)
    requires Tracked(s, start, k) && Enabled(s, Record(at), k) && s.entry.Some? && !Expired(s.entry, at)
    requires s.entry.value.attempts >= MAX_ATTEMPTS && Quiet(s.(clock := at))
    ensures Tracked(After(s, Record(at)), |s.failures|, k)
  {
    FartherBack(s.failures, at, 1, k + 3);
    FartherBack(s.failures, at, 1, 2 * k + 6);
    hide Far, Spread;
    SpreadNext(s.failures, start, s.clock, at, k, |s.failures|);
  }

  lemma CountingTracked(s: State, start: nat, at: int, k: nat)
    requires Tracked(s, start, k) && Enabled(s, Record(at), k) && s.entry.Some? && !Expired(s.entry, at)
    requires !(s.entry.value.attempts >= MAX_ATTEMPTS && Quiet(s.(clock := at)))
    ensures Tracked(After(s, Record(at)), start, k)
  {
    CountingIsFar(s, start, at, k);
    hide Far, Spread;
    SpreadNext(s.failures, start, s.clock, at, k, start);
  }

  lemma StepTracked(s: State, start: nat, step: Step, k: nat) returns (next: nat)
    requires Tracked(s, start, k) && Enabled(s, step, k)
    ensures Tracked(After(s, step), next, k)
  {
    next := start;
    hide Tracked;
    match step
    case Check(at) => CheckTracked(s, start, at, k);
    case GiveUp(at) => GiveUpTracked(s, start, at, k);
    case Record(at) =>
      next := BurstAfter(s, start, at);
      hide Quiet, Expired;
      if s.entry == None || Expired(s.entry, at) {
        OpeningTracked(s, start, at, k);
      } else if s.entry.value.attempts >= MAX_ATTEMPTS && Quiet(s.(clock := at)) {
        ResumingTracked(s, start, at, k);
      } else {
        CountingTracked(s, start, at, k);
      }
  }

  /** Whatever overlaps, the entry describes the failures recorded so far. */
  lemma {:induction false} RunTracked(clock: int, steps: seq<Step>, k: nat) returns (start: nat)
    requires Ran(Start(clock), steps, k).Some?
    ensures Tracked(Ran(Start(clock), steps, k).value, start, k)
  {
    if steps == [] {
      start := 0;
    } else {
      hide Tracked, Enabled, After;
      var n := |steps| - 1;
      start := RunTracked(clock, steps[..n], k);
      start := StepTracked(Ran(Start(clock), steps[..n], k).value, start, steps[n], k);
    }
  }

  /** With at most `k` attempts in flight at a time, any ten minutes contain at most `2k + 6`
      recorded failures: eight if attempts do not overlap. */
  lemma AtMostInAnyWindow(clock: int, steps: seq<Step>, k: nat, from: int)
    requires Ran(Start(clock), steps, k).Some?
    ensures CountIn(Ran(Start(clock), steps, k).value.failures, from) <= 2 * k + 6
  {
    var start := RunTracked(clock, steps, k);
    hide Ran, CountIn, Apart;
    SpreadBounds(Ran(Start(clock), steps, k).value.failures, from, 2 * k + 6);
  }

  // ------------------------------------------------- the bound is reached

  function RunOf(steps: seq<Step>, k: nat): Option<State> {
    Ran(Start(0), steps, k)
  }

  lemma RanNext(start: State, steps: seq<Step>, s: State, step: Step, k: nat)
    requires Ran(start, steps, k) == Some(s) && Enabled(s, step, k)
    ensures Ran(start, steps + [step], k) == Some(After(s, step))
  {
    assert (steps + [step])[..|steps|] == steps;
  }

  lemma StepNext(steps: seq<Step>, s: State, step: Step, k: nat)
    requires RunOf(steps, k) == Some(s) && Enabled(s, step, k)
    ensures RunOf(steps + [step], k) == Some(After(s, step))
  {
    RanNext(Start(0), steps, s, step, k);
  }

  /** An entry that counts `attempts` failures of an epoch, and blocks nothing yet if they
      are fewer than five. */
  ghost predicate Counts(s: State, attempts: nat, first: int) {
    && s.entry.Some? && s.entry.value.attempts == attempts && s.entry.value.firstFailed == Some(first)
    && (attempts < MAX_ATTEMPTS ==> s.entry.value.blockedTill == None)
  }

  function Watched(s: State): nat {
    CountIn(s.failures, SPREAD_FROM)
  }

  /** `j` attempts pass the check. */
  lemma {:induction false} Checked(steps: seq<Step>, s: State, attempts: nat, first: int, at: int, j: nat, k: nat)
    returns (more: seq<Step>, t: State)
    requires RunOf(steps, k) == Some(s) && Counts(s, attempts, first) && attempts < MAX_ATTEMPTS
    requires s.clock <= at <= first + WINDOW && s.inFlight + j <= k
    ensures RunOf(more, k) == Some(t) && Counts(t, attempts, first)
    ensures Watched(t) == Watched(s) && t.inFlight == s.inFlight + j && t.clock <= at
    decreases j
  {
    if j == 0 {
      return steps, s;
    }
    StepNext(steps, s, Check(at), k);
    hide RunOf, Watched;
    more, t := Checked(steps + [Check(at)], After(s, Check(at)), attempts, first, at, j - 1, k);
  }

  /** `j` attempts that are in flight are recorded in the window that is watched. */
  lemma {:induction false} Recorded(steps: seq<Step>, s: State, attempts: nat, first: int, at: int, j: nat, k: nat)
    returns (more: seq<Step>, t: State)
    requires RunOf(steps, k) == Some(s) && Counts(s, attempts, first)
    requires s.clock <= at <= first + WINDOW && SPREAD_FROM <= at < SPREAD_FROM + WINDOW && j <= s.inFlight
    ensures RunOf(more, k) == Some(t) && Counts(t, attempts + j, first)
    ensures Watched(t) == Watched(s) + j && t.inFlight == s.inFlight - j && t.clock <= at
    decreases j
  {
    if j == 0 {
      return steps, s;
    }
    StepNext(steps, s, Record(at), k);
    CountNext(s.failures, at, SPREAD_FROM);
    hide RunOf, CountIn;
    more, t := Recorded(steps + [Record(at)], After(s, Record(at)), attempts + 1, first, at, j - 1, k);
  }

  /** `j` attempts one after the other, for an epoch that stays below five. */
  lemma {:induction false} InTurn(steps: seq<Step>, s: State, attempts: nat, first: int, at: int, j: nat, k: nat)
    returns (more: seq<Step>, t: State)
    requires RunOf(steps, k) == Some(s) && Counts(s, attempts, first) && attempts + j < MAX_ATTEMPTS
    requires s.clock <= at <= first + WINDOW && SPREAD_FROM <= at < SPREAD_FROM + WINDOW && s.inFlight < k
    ensures RunOf(more, k) == Some(t) && Counts(t, attempts + j, first)
    ensures Watched(t) == Watched(s) + j && t.inFlight == s.inFlight && t.clock <= at
    decreases j
  {
    if j == 0 {
      return steps, s;
    }
    hide RunOf, Watched, Counts;
    var mid, c := Checked(steps, s, attempts, first, at, 1, k);
    var before, b := Recorded(mid, c, attempts, first, at, 1, k);
    more, t := InTurn(before, b, attempts + 1, first, at, j - 1, k);
  }

  lemma FirstFails(k: nat) returns (steps: seq<Step>, s: State)
    requires k > 0
    ensures RunOf(steps, k) == Some(s) && Counts(s, 1, 0) && Watched(s) == 0 && s.inFlight == 0 && s.clock == 0
  {
    StepNext([], Start(0), Check(0), k);
    var c := After(Start(0), Check(0));
    StepNext([Check(0)], c, Record(0), k);
    CountNext([], 0, SPREAD_FROM);
    steps := [Check(0)] + [Record(0)];
    s := After(c, Record(0));
    assert [] + [Check(0)] == [Check(0)];
  }

  /** The last attempt in flight opens the next epoch, and so ends the block. */
  lemma LastOpens(steps: seq<Step>, s: State, attempts: nat, k: nat) returns (more: seq<Step>, t: State)
    requires RunOf(steps, k) == Some(s) && Counts(s, attempts, 0)
    requires s.clock <= 599 * SECOND && s.inFlight == 1
    ensures RunOf(more, k) == Some(t) && Counts(t, 1, 601 * SECOND)
    ensures Watched(t) == Watched(s) + 1 && t.inFlight == 0 && t.clock == 601 * SECOND
  {
    StepNext(steps, s, Record(601 * SECOND), k);
    CountNext(s.failures, 601 * SECOND, SPREAD_FROM);
    more, t := steps + [Record(601 * SECOND)], After(s, Record(601 * SECOND));
  }

  lemma Unfolded(steps: seq<Step>, s: State, k: nat)
    requires RunOf(steps, k) == Some(s)
    ensures Ran(Start(0), steps, k) == Some(s) && Watched(s) == CountIn(s.failures, SPREAD_FROM)
  {
  }

  /** For every `k` the bound is reached: `k` attempts pass the check late in an epoch, and
      the last of them is recorded when the epoch is over. */
  lemma BoundIsReached(k: nat) returns (steps: seq<Step>)
    requires k > 0
    ensures Ran(Start(0), steps, k).Some?
    ensures CountIn(Ran(Start(0), steps, k).value.failures, SPREAD_FROM) == 2 * k + 6
  {
    var s, late, later := Start(0), 599 * SECOND, 601 * SECOND;
    hide RunOf, Watched, Counts;
    steps, s := FirstFails(k);
    steps, s := InTurn(steps, s, 1, 0, late, 3, k);
    steps, s := Checked(steps, s, 4, 0, late, k, k);
    steps, s := Recorded(steps, s, 4, 0, late, k - 1, k);
    steps, s := LastOpens(steps, s, k + 3, k);
    steps, s := InTurn(steps, s, 1, later, later, 3, k);
    steps, s := Checked(steps, s, 4, later, later, k, k);
    steps, s := Recorded(steps, s, 4, later, later, k, k);
    assert RunOf(steps, k) == Some(s) && Watched(s) == 2 * k + 6;
    Unfolded(steps, s, k);
  }

  // ------------------------------------------ attempts that do not overlap

  /** The steps of attempts that follow one another. */
  function StepsOf(attempts: seq<Attempt>): seq<Step> {
    if attempts == [] then []
    else
      var n := |attempts| - 1;
      var a := attempts[n];
      var checked := StepsOf(attempts[..n]) + [Check(a.allowAt)];
      if Blocks(AttemptedAll(attempts[..n]).entry, a.allowAt) then checked
      else checked + [if a.fails then Record(a.failAt) else GiveUp(a.failAt)]
  }

  lemma AttemptIsSteps(start: State, steps: seq<Step>, s: State, a: Attempt)
    requires Ran(start, steps, 1) == Some(s) && s.inFlight == 0 && s.clock <= a.allowAt <= a.failAt
    ensures var h, checked := Attempted(History(s.entry, s.failures), a), steps + [Check(a.allowAt)];
      if Blocks(s.entry, a.allowAt) then Ran(start, checked, 1) == Some(State(h.entry, h.failures, 0, a.allowAt))
      else
        Ran(start, checked + [if a.fails then Record(a.failAt) else GiveUp(a.failAt)], 1)
          == Some(State(h.entry, h.failures, 0, a.failAt))
  {
    var check := Check(a.allowAt);
    RanNext(start, steps, s, check, 1);
    hide Ran, AfterAllow, AfterFailure, Blocks;
    if !Blocks(s.entry, a.allowAt) {
      RanNext(start, steps + [check], After(s, check), if a.fails then Record(a.failAt) else GiveUp(a.failAt), 1);
    }
  }

  /** They are runs with one attempt in flight. */
  lemma {:induction false} SequentialIsOneInFlight(attempts: seq<Attempt>, clock: int)
    requires Sequential(attempts) && (attempts != [] ==> clock <= attempts[0].allowAt)
    ensures Ran(Start(clock), StepsOf(attempts), 1).Some?
    ensures var s, h := Ran(Start(clock), StepsOf(attempts), 1).value, AttemptedAll(attempts);
      && s.entry == h.entry && s.failures == h.failures && s.inFlight == 0
      && s.clock <= (if attempts == [] then clock else Now(attempts))
  {
    hide Attempted, Blocks;
    if attempts == [] {
    } else {
      var n := |attempts| - 1;
      SequentialIsOneInFlight(attempts[..n], clock);
      hide Ran;
      var before := StepsOf(attempts[..n]);
      AttemptIsSteps(Start(clock), before, Ran(Start(clock), before, 1).value, attempts[n]);
    }
  }
}

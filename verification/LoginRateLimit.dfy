/** The login rate limiter (backend/internal/auth/rate_limit.go), as the login
    handler uses it (backend/internal/auth/handler.go:67-97). */
module LoginRateLimit {
  import opened Text

  /** Instants and durations in nanoseconds. */
  const SECOND: int := 1_000_000_000
  const WINDOW: int := 600 * SECOND
  const BLOCK_WINDOW: int := 600 * SECOND
  const MAX_ATTEMPTS: nat := 5

  /** `None` is the zero instant. */
  datatype AttemptState = AttemptState(attempts: nat, firstFailed: Option<int>, blockedTill: Option<int>)

  /** The entry for a key, if the map has one. */
  type Entry = Option<AttemptState>

  function Blocks(entry: Entry, now: int): bool {
    entry.Some? && entry.value.blockedTill.Some? && now < entry.value.blockedTill.value
  }

  /** Seconds, truncated; the difference is positive where this is used. */
  function RetryAfter(entry: Entry, now: int): int
    requires Blocks(entry, now)
  {
    (entry.value.blockedTill.value - now) / SECOND
  }

  function Expired(entry: Entry, now: int): bool {
    entry.Some? && entry.value.firstFailed.Some? && now - entry.value.firstFailed.value > WINDOW
  }

  /** The entry after `Allow`. */
  function AfterAllow(entry: Entry, now: int): Entry {
    if !Blocks(entry, now) && Expired(entry, now) then None else entry
  }

  /** The entry after `RecordFailure`. */
  function AfterFailure(entry: Entry, now: int): Entry {
    if entry == None || entry.value.firstFailed == None || Expired(entry, now)
    then Some(AttemptState(1, Some(now), None))
    else
      var attempts := entry.value.attempts + 1;
      Some(entry.value.(
        attempts := attempts,
        blockedTill := if attempts >= MAX_ATTEMPTS then Some(now + BLOCK_WINDOW) else entry.value.blockedTill))
  }

  /** A check forgets an entry exactly if its first failure is more than ten minutes old and it
      blocks nothing; otherwise it leaves the entry as it is. */
  lemma CheckForgets(entry: Entry, now: int)
    ensures var blocked := entry.Some? && entry.value.blockedTill.Some? && now < entry.value.blockedTill.value;
      AfterAllow(entry, now) ==
        if && entry.Some? && !blocked
           && entry.value.firstFailed.Some? && entry.value.firstFailed.value + 600 * SECOND < now
        then None else entry
  {
  }

  /** A failure opens an epoch if there is none, or the first failure of the last is more than ten
      minutes old; else it counts on, and the fifth and every later one blocks for ten minutes. */
  lemma FailureCounts(entry: Entry, now: int)
    ensures var t := AfterFailure(entry, now);
      var first := if entry.Some? then entry.value.firstFailed else None;
      && t.Some?
      && (if first.Some? && now <= first.value + 600 * SECOND then
            && t.value.attempts == entry.value.attempts + 1 && t.value.firstFailed == first
            && t.value.blockedTill ==
                 (if entry.value.attempts >= 4 then Some(now + 600 * SECOND) else entry.value.blockedTill)
          else t.value == AttemptState(1, Some(now), None))
  {
  }

  /** A reported retry-after is how long the key stays blocked, to the second. */
  lemma RetryAfterIsWait(entry: Entry, now: int)
    requires Blocks(entry, now)
    ensures var wait := RetryAfter(entry, now);
      && 0 <= wait
      && (forall t :: now <= t < now + wait * SECOND ==> Blocks(entry, t))
      && (forall t :: now + (wait + 1) * SECOND <= t ==> !Blocks(entry, t))
  {
    var left := entry.value.blockedTill.value - now;
    var wait := RetryAfter(entry, now);
    assert left == wait * SECOND + left % SECOND;
  }

  class LoginRateLimiter {
    var attempts: map<string, AttemptState>

    function Lookup(key: string): Entry
      reads this
    {
      if key in attempts then Some(attempts[key]) else None
    }

    constructor ()
      ensures attempts == map[]
    {
      attempts := map[];
    }

    method Allow(key: string, now: int) returns (retryAfter: int, blocked: bool)
      modifies this
      ensures blocked == Blocks(old(Lookup(key)), now)
      ensures retryAfter == if blocked then RetryAfter(old(Lookup(key)), now) else 0
      ensures Lookup(key) == AfterAllow(old(Lookup(key)), now)
      ensures forall other :: other != key ==> Lookup(other) == old(Lookup(other))
    {
      if key !in attempts {
        return 0, false;
      }
      var state := attempts[key];
      if state.blockedTill.Some? && now < state.blockedTill.value {
        return (state.blockedTill.value - now) / SECOND, true;
      }
      if state.firstFailed.Some? && now - state.firstFailed.value > WINDOW {
        attempts := attempts - {key};
      }
      return 0, false;
    }

    method RecordFailure(key: string, now: int)
      modifies this
      ensures Lookup(key) == AfterFailure(old(Lookup(key)), now)
      ensures forall other :: other != key ==> Lookup(other) == old(Lookup(other))
    {
      var state := if key in attempts then attempts[key] else AttemptState(0, None, None);
      if state.firstFailed == None || now - state.firstFailed.value > WINDOW {
        state := AttemptState(1, Some(now), None);
        attempts := attempts[key := state];
        return;
      }
      state := state.(attempts := state.attempts + 1);
      if state.attempts >= MAX_ATTEMPTS {
        state := state.(blockedTill := Some(now + BLOCK_WINDOW));
      }
      attempts := attempts[key := state];
    }

    method Reset(key: string)
      modifies this
      ensures Lookup(key) == None
      ensures forall other :: other != key ==> Lookup(other) == old(Lookup(other))
    {
      attempts := attempts - {key};
    }
  }

  // ------------------------------------------------------- login attempts

  /** One request for the key: the two clock readings, and whether the credentials are
      wrong.  A request that is neither blocked nor wrong records nothing here: a
      successful login resets the key, and is not part of these runs. */
  datatype Attempt = Attempt(allowAt: int, failAt: int, fails: bool)

  /** The limiter's entry and the times of all recorded failures. */
  datatype History = History(entry: Entry, failures: seq<int>)

  function Attempted(h: History, a: Attempt): History {
    var entry := AfterAllow(h.entry, a.allowAt);
    if Blocks(h.entry, a.allowAt) || !a.fails then History(entry, h.failures)
    else History(AfterFailure(entry, a.failAt), h.failures + [a.failAt])
  }

  function AttemptedAll(attempts: seq<Attempt>): History {
    if attempts == [] then History(None, [])
    else Attempted(AttemptedAll(attempts[..|attempts| - 1]), attempts[|attempts| - 1])
  }

  /** Attempts follow one another, and the clock does not run backwards. */
  ghost predicate Sequential(attempts: seq<Attempt>) {
    && (forall i :: 0 <= i < |attempts| ==> attempts[i].allowAt <= attempts[i].failAt)
    && (forall i :: 0 < i < |attempts| ==> attempts[i - 1].failAt <= attempts[i].allowAt)
  }

  function Now(attempts: seq<Attempt>): int
    requires attempts != []
  {
    attempts[|attempts| - 1].failAt
  }

  /** What the limiter's entry says about the failures.  `start` is the index of the
      first failure of the current, or last, counting epoch. */
  ghost predicate Tracks(h: History, start: nat, now: int) {
    var f := h.failures;
    && (forall i, j :: 0 <= i <= j < |f| ==> f[i] <= f[j])
    && (forall i :: 0 <= i < |f| ==> f[i] <= now)
    && start <= |f| && (f != [] ==> start < |f|)
    && (f == [] ==> h.entry == None)
    // eight steps back, and four steps back from the start of an epoch
    && (forall i :: 0 <= i && i + 8 < |f| ==> f[i + 8] - f[i] >= WINDOW)
    && (start < |f| && start >= 4 ==> f[start] - f[start - 4] >= WINDOW)
    && (h.entry == None && f != [] ==>
          now - f[start] > WINDOW && (|f| - start >= MAX_ATTEMPTS ==> now - f[|f| - 1] >= WINDOW))
    && (h.entry.Some? ==>
          && f != []
          && h.entry.value.attempts == |f| - start
          && h.entry.value.firstFailed == Some(f[start])
          && h.entry.value.blockedTill ==
               (if |f| - start >= MAX_ATTEMPTS then Some(f[|f| - 1] + BLOCK_WINDOW) else None))
  }

  /** The epoch a failure at `now` belongs to. */
  function EpochAfter(h: History, start: nat, now: int): nat {
    if h.entry == None || Expired(h.entry, now) then |h.failures| else start
  }

  lemma AllowTracks(h: History, start: nat, now: int, at: int)
    requires Tracks(h, start, now) && now <= at
    ensures Tracks(History(AfterAllow(h.entry, at), h.failures), start, at)
  {
  }

  /** An unblocked failure is a window away from the eighth failure before it, and,
      if it opens an epoch, from the fourth. */
  lemma FarFromOld(h: History, start: nat, at: int, now: int)
    requires Tracks(h, start, at) && at <= now && !Blocks(h.entry, at)
    ensures var f, n := h.failures, |h.failures|;
      && (n >= 8 ==> now - f[n - 8] >= WINDOW)
      && (n >= 4 && EpochAfter(h, start, now) == n ==> now - f[n - 4] >= WINDOW)
  {
    var f, n := h.failures, |h.failures|;
    if n >= 4 {
      assert f[start] <= f[n - 1] <= at;
      if n - start >= MAX_ATTEMPTS {
        assert now - f[n - 1] >= WINDOW;
      } else {
        assert f[n - 4] <= f[start];
        if n >= 8 {
          assert f[n - 8] <= f[start - 4];
        }
      }
    }
  }

  lemma OpeningTracks(h: History, start: nat, at: int, now: int)
    requires Tracks(h, start, at) && at <= now && !Blocks(h.entry, at) && (h.entry == None || Expired(h.entry, now))
    ensures Tracks(History(Some(AttemptState(1, Some(now), None)), h.failures + [now]), |h.failures|, now)
  {
    FarFromOld(h, start, at, now);
  }

  lemma CountingTracks(h: History, start: nat, at: int, now: int)
    requires Tracks(h, start, at) && at <= now && !Blocks(h.entry, at) && h.entry.Some? && !Expired(h.entry, now)
    ensures Tracks(History(AfterFailure(h.entry, now), h.failures + [now]), start, now)
  {
    FarFromOld(h, start, at, now);
  }

  lemma FailureTracks(h: History, start: nat, at: int, now: int)
    requires Tracks(h, start, at) && at <= now && !Blocks(h.entry, at)
    ensures Tracks(History(AfterFailure(h.entry, now), h.failures + [now]), EpochAfter(h, start, now), now)
  {
    var opens := h.entry == None || Expired(h.entry, now);
    assert h.entry.Some? ==> h.entry.value.firstFailed.Some?;
    hide Tracks;
    if opens {
      OpeningTracks(h, start, at, now);
    } else {
      CountingTracks(h, start, at, now);
    }
  }

  lemma StillUnblocked(entry: Entry, at: int)
    ensures !Blocks(entry, at) ==> !Blocks(AfterAllow(entry, at), at)
  {
  }

  lemma EmptyTracks(now: int)
    ensures Tracks(History(None, []), 0, now)
  {
  }

  lemma LaterTracks(h: History, start: nat, now: int, later: int)
    requires Tracks(h, start, now) && now <= later
    ensures Tracks(h, start, later)
  {
  }

  lemma {:induction false} RunTracks(attempts: seq<Attempt>) returns (start: nat)
    requires Sequential(attempts) && attempts != []
    ensures Tracks(AttemptedAll(attempts), start, Now(attempts))
  {
    hide Tracks, AfterAllow, AfterFailure, Blocks;
    var n := |attempts| - 1;
    var a := attempts[n];
    var h := AttemptedAll(attempts[..n]);
    var before := a.allowAt;
    if n == 0 {
      start := 0;
      EmptyTracks(before);
    } else {
      start := RunTracks(attempts[..n]);
      before := Now(attempts[..n]);
    }
    AllowTracks(h, start, before, a.allowAt);
    var allowed := History(AfterAllow(h.entry, a.allowAt), h.failures);
    StillUnblocked(h.entry, a.allowAt);
    if Blocks(h.entry, a.allowAt) || !a.fails {
      LaterTracks(allowed, start, a.allowAt, a.failAt);
    } else {
      FailureTracks(allowed, start, a.allowAt, a.failAt);
      start := EpochAfter(allowed, start, a.failAt);
    }
  }

  /** How many of the times lie in the half-open window that begins at `from`. */
  function CountIn(times: seq<int>, from: int): nat {
    if times == [] then 0
    else
      var last := times[|times| - 1];
      CountIn(times[..|times| - 1], from) + (if from <= last < from + WINDOW then 1 else 0)
  }

  lemma {:induction false} CountAtMost(times: seq<int>, from: int, lo: nat)
    requires forall i :: 0 <= i < lo && i < |times| ==> !(from <= times[i] < from + WINDOW)
    ensures CountIn(times, from) <= (if |times| <= lo then 0 else |times| - lo)
  {
    if times == [] {
    } else {
      CountAtMost(times[..|times| - 1], from, lo);
    }
  }

  ghost predicate Sorted(times: seq<int>) {
    forall i, j :: 0 <= i <= j < |times| ==> times[i] <= times[j]
  }

  /** Any `k` steps take a window. */
  ghost predicate Apart(times: seq<int>, k: nat) {
    forall i :: 0 <= i && i + k < |times| ==> times[i + k] - times[i] >= WINDOW
  }

  /** Times that are a window apart every `k` steps put at most `k` in a window. */
  lemma {:induction false} SpreadBounds(times: seq<int>, from: int, k: nat)
    requires Sorted(times) && Apart(times, k)
    ensures CountIn(times, from) <= k
  {
    if times == [] {
    } else {
      var n := |times| - 1;
      if from <= times[n] < from + WINDOW {
        var lo: nat := if n < k then 0 else n - k + 1;
        forall i | 0 <= i < lo ensures times[i] < from {
          assert times[i] <= times[n - k];
          assert times[n - k + k] - times[n - k] >= WINDOW;
        }
        CountAtMost(times, from, lo);
      } else {
        SpreadBounds(times[..n], from, k);
      }
    }
  }

  /** Sliding-window bound: whatever the times of the attempts, any ten minutes contain
      at most eight recorded failures. */
  lemma AtMostEightInAnyWindow(attempts: seq<Attempt>, from: int)
    requires Sequential(attempts)
    ensures CountIn(AttemptedAll(attempts).failures, from) <= 8
  {
    if attempts != [] {
      var start := RunTracks(attempts);
      SpreadBounds(AttemptedAll(attempts).failures, from, 8);
    }
  }

  // ------------------------------------------------------- when five hold

  /** The failure that the attempt records, if it records one, opens a counting epoch. */
  predicate Opens(h: History, a: Attempt) {
    var entry := AfterAllow(h.entry, a.allowAt);
    a.fails && !Blocks(h.entry, a.allowAt) && (entry == None || Expired(entry, a.failAt))
  }

  /** Every epoch opens at least a window after the failure before it. */
  predicate Spaced(attempts: seq<Attempt>) {
    attempts == [] ||
    (var n := |attempts| - 1;
     var h := AttemptedAll(attempts[..n]);
     Spaced(attempts[..n])
     && (Opens(h, attempts[n]) && h.failures != [] ==> attempts[n].failAt - h.failures[|h.failures| - 1] >= WINDOW))
  }

  /** Five steps take a window, and so did the step into the current epoch. */
  ghost predicate FiveApart(h: History, start: nat) {
    Apart(h.failures, 5)
    && (0 < start < |h.failures| ==> h.failures[start] - h.failures[start - 1] >= WINDOW)
  }

  lemma FiveStep(h: History, start: nat, at: int, now: int)
    requires Tracks(h, start, at) && at <= now && !Blocks(h.entry, at) && FiveApart(h, start)
    requires EpochAfter(h, start, now) == |h.failures| > 0 ==> now - h.failures[|h.failures| - 1] >= WINDOW
    ensures FiveApart(History(AfterFailure(h.entry, now), h.failures + [now]), EpochAfter(h, start, now))
  {
    var f, n := h.failures, |h.failures|;
    if n >= 5 {
      assert f[n - 5] <= f[n - 1] <= at;
      if EpochAfter(h, start, now) == n {
        assert now - f[n - 5] >= WINDOW;
      } else if n - start >= MAX_ATTEMPTS {
        assert now - f[n - 1] >= WINDOW;
      } else {
        assert f[n - 5] <= f[start - 1] && f[start] <= f[n - 1];
      }
    }
  }

  lemma OpensWhen(h: History, start: nat, at: int, now: int)
    requires Tracks(h, start, at)
    ensures EpochAfter(h, start, now) == |h.failures| > 0 ==> h.entry == None || Expired(h.entry, now)
  {
  }

  /** Where the attempts of a spaced run stand. */
  lemma {:induction false} SpacedTracks(attempts: seq<Attempt>) returns (start: nat)
    requires Sequential(attempts) && attempts != [] && Spaced(attempts)
    ensures Tracks(AttemptedAll(attempts), start, Now(attempts)) && FiveApart(AttemptedAll(attempts), start)
  {
    hide Tracks, AfterAllow, AfterFailure, Blocks, Expired;
    var n := |attempts| - 1;
    var a := attempts[n];
    var h := AttemptedAll(attempts[..n]);
    var before := a.allowAt;
    if n == 0 {
      start := 0;
      EmptyTracks(before);
    } else {
      start := SpacedTracks(attempts[..n]);
      before := Now(attempts[..n]);
    }
    AllowTracks(h, start, before, a.allowAt);
    var allowed := History(AfterAllow(h.entry, a.allowAt), h.failures);
    StillUnblocked(h.entry, a.allowAt);
    if Blocks(h.entry, a.allowAt) || !a.fails {
      LaterTracks(allowed, start, a.allowAt, a.failAt);
    } else {
      FailureTracks(allowed, start, a.allowAt, a.failAt);
      OpensWhen(allowed, start, a.allowAt, a.failAt);
      FiveStep(allowed, start, a.allowAt, a.failAt);
      start := EpochAfter(allowed, start, a.failAt);
    }
  }

  /** Five is kept by the runs whose epochs each open a window after the last failure. */
  lemma AtMostFiveWhenSpaced(attempts: seq<Attempt>, from: int)
    requires Sequential(attempts) && Spaced(attempts)
    ensures CountIn(AttemptedAll(attempts).failures, from) <= 5
  {
    if attempts == [] {
    } else {
      var start := SpacedTracks(attempts);
      assert Sorted(AttemptedAll(attempts).failures);
      SpreadBounds(AttemptedAll(attempts).failures, from, 5);
    }
  }

  lemma {:induction false} CountAtLeast(times: seq<int>, from: int, lo: nat, hi: nat)
    requires lo <= hi <= |times| && forall i :: lo <= i < hi ==> from <= times[i] < from + WINDOW
    ensures CountIn(times, from) >= hi - lo
    decreases |times|
  {
    if times == [] {
    } else {
      var n := |times| - 1;
      CountAtLeast(times[..n], from, if lo == |times| then n else lo, if hi == |times| then n else hi);
    }
  }

  lemma CrowdedWindow(times: seq<int>, i: nat, k: nat)
    requires Sorted(times) && i + k < |times| && times[i + k] - times[i] < WINDOW
    ensures CountIn(times, times[i]) > k
  {
    CountAtLeast(times, times[i], i, i + k + 1);
  }

  ghost predicate AtMost(times: seq<int>, k: nat) {
    forall from :: CountIn(times, from) <= k
  }

  lemma AtMostExactly(times: seq<int>, k: nat)
    requires Sorted(times)
    ensures AtMost(times, k) <==> Apart(times, k)
  {
    hide CountIn;
    if Apart(times, k) {
      forall from ensures CountIn(times, from) <= k {
        SpreadBounds(times, from, k);
      }
    } else {
      var i :| 0 <= i && i + k < |times| && times[i + k] - times[i] < WINDOW;
      CrowdedWindow(times, i, k);
    }
  }

  /** How many failures the epoch holds that a failure of this attempt would count in. */
  function CountedBefore(h: History, a: Attempt): nat {
    var entry := AfterAllow(h.entry, a.allowAt);
    if entry == None || Expired(entry, a.failAt) then 0 else entry.value.attempts
  }

  /** The limiter lets a wrong attempt through, because its epoch holds fewer than five
      failures, while the fifth last failure is still within the window: five failures
      that are spread over two epochs. */
  predicate Crowds(h: History, a: Attempt) {
    && a.fails && !Blocks(h.entry, a.allowAt)
    && CountedBefore(h, a) < MAX_ATTEMPTS
    && |h.failures| >= 5 && a.failAt - h.failures[|h.failures| - 5] < WINDOW
  }

  predicate Uncrowded(attempts: seq<Attempt>) {
    attempts == [] ||
    (var n := |attempts| - 1;
     Uncrowded(attempts[..n]) && !Crowds(AttemptedAll(attempts[..n]), attempts[n]))
  }

  lemma ApartNext(times: seq<int>, x: int, k: nat)
    requires k > 0
    ensures Apart(times + [x], k) <==> Apart(times, k) && (|times| >= k ==> x - times[|times| - k] >= WINDOW)
  {
    var more, n := times + [x], |times|;
    if Apart(more, k) {
      assert n >= k ==> more[n - k + k] - more[n - k] >= WINDOW;
      forall i | 0 <= i && i + k < n ensures times[i + k] - times[i] >= WINDOW {
        assert more[i + k] - more[i] >= WINDOW;
      }
    }
  }

  /** A failure that an epoch of five lets through comes a window after the last one. */
  lemma FullEpochWaits(h: History, start: nat, at: int, a: Attempt)
    requires Tracks(h, start, at) && at <= a.allowAt <= a.failAt && !Blocks(h.entry, a.allowAt)
    requires CountedBefore(h, a) >= MAX_ATTEMPTS && |h.failures| >= 5
    ensures a.failAt - h.failures[|h.failures| - 5] >= WINDOW
  {
    var f, n := h.failures, |h.failures|;
    assert f[n - 5] <= f[n - 1];
  }

  lemma CrowdsExactly(h: History, start: nat, at: int, a: Attempt)
    requires Tracks(h, start, at) && at <= a.allowAt <= a.failAt
    ensures Apart(Attempted(h, a).failures, 5) <==> Apart(h.failures, 5) && !Crowds(h, a)
  {
    ApartNext(h.failures, a.failAt, 5);
    var recorded := a.fails && !Blocks(h.entry, a.allowAt);
    if recorded && CountedBefore(h, a) >= MAX_ATTEMPTS && |h.failures| >= 5 {
      FullEpochWaits(h, start, at, a);
    }
    hide Tracks, Apart, AfterAllow, AfterFailure, Blocks, CountedBefore;
  }

  lemma {:induction false} UncrowdedIsApart(attempts: seq<Attempt>)
    requires Sequential(attempts)
    ensures Uncrowded(attempts) <==> Apart(AttemptedAll(attempts).failures, 5)
  {
    hide Tracks, Crowds, Attempted;
    if attempts == [] {
    } else {
      var n := |attempts| - 1;
      var start: nat, at := 0, attempts[n].allowAt;
      UncrowdedIsApart(attempts[..n]);
      if n > 0 {
        start := RunTracks(attempts[..n]);
        at := Now(attempts[..n]);
      } else {
        EmptyTracks(at);
      }
      CrowdsExactly(AttemptedAll(attempts[..n]), start, at, attempts[n]);
    }
  }

  /** And exactly: every window holds at most five failures if and only if no attempt of
      the run is let through by an epoch of fewer than five while the fifth last failure
      is within the window. */
  lemma FiveExactly(attempts: seq<Attempt>)
    requires Sequential(attempts)
    ensures AtMost(AttemptedAll(attempts).failures, 5) <==> Uncrowded(attempts)
  {
    assert Sorted(AttemptedAll(attempts).failures) by {
      if attempts != [] {
        var start := RunTracks(attempts);
      }
    }
    hide AttemptedAll, AtMost, Apart, Uncrowded;
    AtMostExactly(AttemptedAll(attempts).failures, 5);
    UncrowdedIsApart(attempts);
  }

  /** A reported retry-after lies between 0 and 600 seconds. */
  lemma {:induction false} RetryAfterInRange(attempts: seq<Attempt>, now: int)
    requires Sequential(attempts) && attempts != [] && Now(attempts) <= now
    requires Blocks(AttemptedAll(attempts).entry, now)
    ensures 0 <= RetryAfter(AttemptedAll(attempts).entry, now) <= 600
  {
    var start := RunTracks(attempts);
  }

  /** After any run a key is blocked exactly for ten minutes from its last failure, if that was at
      least the fifth of its epoch. */
  lemma BlockedExactly(attempts: seq<Attempt>, now: int)
    requires Sequential(attempts)
    ensures var h := AttemptedAll(attempts);
      Blocks(h.entry, now) <==>
        && h.entry.Some? && h.entry.value.attempts >= 5
        && h.failures != [] && now < h.failures[|h.failures| - 1] + 600 * SECOND
  {
    if attempts != [] {
      var start := RunTracks(attempts);
    }
  }

  lemma AttemptedNext(attempts: seq<Attempt>, a: Attempt)
    ensures AttemptedAll(attempts + [a]) == Attempted(AttemptedAll(attempts), a)
  {
    assert (attempts + [a])[..|attempts|] == attempts;
  }

  lemma CountNext(times: seq<int>, x: int, from: int)
    ensures CountIn(times + [x], from) == CountIn(times, from) + (if from <= x < from + WINDOW then 1 else 0)
  {
    assert (times + [x])[..|times|] == times;
  }

  /** A wrong attempt `at` seconds after the start. */
  function Wrong(at: int): Attempt {
    Attempt(at * SECOND, at * SECOND, true)
  }

  const SPREAD_FROM := 599 * SECOND

  /** One more recorded failure in the window that the example watches. */
  lemma OneMore(before: seq<Attempt>, at: int)
    requires !Blocks(AttemptedAll(before).entry, at * SECOND) && 599 <= at < 1199
    ensures var h, t := AttemptedAll(before), AttemptedAll(before + [Wrong(at)]);
      && t.entry == AfterFailure(AfterAllow(h.entry, at * SECOND), at * SECOND)
      && CountIn(t.failures, SPREAD_FROM) == CountIn(h.failures, SPREAD_FROM) + 1
  {
    hide AttemptedAll, AfterFailure, AfterAllow, CountIn;
    AttemptedNext(before, Wrong(at));
    CountNext(AttemptedAll(before).failures, at * SECOND, SPREAD_FROM);
  }

  function Opening(): seq<Attempt> {
    [Wrong(0)] + [Wrong(599)] + [Wrong(599)] + [Wrong(599)]
  }

  lemma FirstCounts()
    ensures var h := AttemptedAll([Wrong(0)]);
      h.entry == Some(AttemptState(1, Some(0), None)) && CountIn(h.failures, SPREAD_FROM) == 0
  {
    AttemptedNext([], Wrong(0));
    CountNext([], 0, SPREAD_FROM);
    assert [] + [Wrong(0)] == [Wrong(0)];
    assert [] + [0] == [0];
  }

  lemma OpeningCounts()
    ensures var h := AttemptedAll(Opening());
      h.entry == Some(AttemptState(4, Some(0), None)) && CountIn(h.failures, SPREAD_FROM) == 3
  {
    hide AttemptedAll, CountIn;
    FirstCounts();
    var first := [Wrong(0)];
    OneMore(first, 599);
    OneMore(first + [Wrong(599)], 599);
    OneMore(first + [Wrong(599)] + [Wrong(599)], 599);
  }

  /** The bound is reached: three late failures of one epoch and five of the next lie in
      one window. */
  lemma EightIsReached()
    ensures var attempts := Opening() + [Wrong(601)] + [Wrong(601)] + [Wrong(601)] + [Wrong(601)] + [Wrong(601)];
      Sequential(attempts) && CountIn(AttemptedAll(attempts).failures, SPREAD_FROM) == 8
  {
    hide AttemptedAll, CountIn;
    OpeningCounts();
    var a0 := Opening();
    OneMore(a0, 601);
    var a1 := a0 + [Wrong(601)];
    OneMore(a1, 601);
    var a2 := a1 + [Wrong(601)];
    OneMore(a2, 601);
    var a3 := a2 + [Wrong(601)];
    OneMore(a3, 601);
    var a4 := a3 + [Wrong(601)];
    OneMore(a4, 601);
  }
}

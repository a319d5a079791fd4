/**
 Retry control of the sentinel (src/sentinel.rs): the failure streak with its exponential
 backoff, and the raft log barrier between successful requests.

 Instants and durations are nanoseconds; clock readings and the applied index are parameters.
 */
module Sentinel {
  import opened Options
  import opened Naturals

  type Instant = nat

  datatype ActionKind = Shutdown | AutoOnlineBySelf | AutoOfflineByLeader

  datatype FailStreak = FailStreak(count: nat, mult: nat, start: Instant, lastTry: Instant, code: int)

  /** Applied index and time of the last successful attempt. */
  datatype Success = Success(index: nat, time: Instant)

  datatype Tracker = Tracker(lastAction: Option<ActionKind>, lastSuccess: Option<Success>,
                             failStreak: Option<FailStreak>)

  const NEW_TRACKER: Tracker := Tracker(None, None, None)

  const U32_MAX: nat := 0xFFFF_FFFF
  const RAFT_LOG_BARRIER_TIMEOUT: nat := 3_600_000_000_000
  const SENTINEL_BACKOFF_MAX_DURATION: nat := 600_000_000_000
  const SENTINEL_SHORT_RETRY: nat := 300_000_000
  const SENTINEL_REPLICATION_BROKEN_WAIT: nat := 600_000_000_000

  function Elapsed(now: Instant, since: Instant): nat {
    if now < since then 0 else now - since
  }

  function SaturatingDouble(m: nat): nat {
    Min(2 * m, U32_MAX)
  }

  // ---- Operations as functions on the tracker --------------------------------------------------

  function WithAction(t: Tracker, kind: ActionKind): Tracker {
    if t.lastAction.None? then t.(lastAction := Some(kind))
    else if t.lastAction.value != kind then t.(lastAction := Some(kind), failStreak := None)
    else t
  }

  function WithSuccess(t: Tracker, index: nat, now: Instant): Tracker {
    t.(failStreak := None, lastSuccess := Some(Success(index, now)))
  }

  function WithFailure(t: Tracker, code: int, now: Instant): Tracker {
    if t.failStreak.None? || t.failStreak.value.code != code
    then t.(failStreak := Some(FailStreak(1, 1, now, now, code)))
    else
      var s := t.failStreak.value;
      t.(failStreak := Some(s.(count := s.count + 1, mult := SaturatingDouble(s.mult), lastTry := now)))
  }

  predicate BarrierPassed(t: Tracker, applied: nat, now: Instant) {
    match t.lastSuccess
    case None => true
    case Some(s) => s.index < applied || Elapsed(now, s.time) > RAFT_LOG_BARRIER_TIMEOUT
  }

  function StreakTimeout(t: Tracker, base: nat): nat {
    match t.failStreak
    case None => base
    case Some(s) => Min(SENTINEL_BACKOFF_MAX_DURATION, base * s.mult)
  }

  predicate BackoffPassed(t: Tracker, base: nat, now: Instant) {
    t.failStreak.Some? ==> Elapsed(now, t.failStreak.value.lastTry) > StreakTimeout(t, base)
  }

  function LastAttempt(t: Tracker): Option<Instant> {
    match (t.lastSuccess, t.failStreak)
    case (None, None) => None
    case (Some(s), None) => Some(s.time)
    case (None, Some(f)) => Some(f.lastTry)
    case (Some(s), Some(f)) => Some(Max(s.time, f.lastTry))
  }

  predicate LongWaitPassed(t: Tracker, wait: nat, now: Instant) {
    LastAttempt(t).Some? ==> now >= LastAttempt(t).value + wait
  }

  /** No action yet means no success and no failure yet, as `set_action_kind` asserts. */
  predicate TrackerOk(t: Tracker) {
    t.lastAction.None? ==> t.lastSuccess.None? && t.failStreak.None?
  }

  class ContinuityTracker {
    var lastActionKind: Option<ActionKind>
    var lastSuccessfulAttempt: Option<Success>
    var failStreak: Option<FailStreak>

    function Value(): Tracker
      reads this
    {
      Tracker(lastActionKind, lastSuccessfulAttempt, failStreak)
    }

    constructor ()
      ensures Value() == NEW_TRACKER
    {
      lastActionKind, lastSuccessfulAttempt, failStreak := None, None, None;
    }

    method SetActionKind(kind: ActionKind)
      requires TrackerOk(Value())
      modifies this
      ensures Value() == WithAction(old(Value()), kind) && lastActionKind == Some(kind) && TrackerOk(Value())
      ensures old(lastActionKind) != Some(kind) ==> failStreak == None
    {
      if lastActionKind.None? {
        lastActionKind := Some(kind);
        assert lastSuccessfulAttempt.None? && failStreak.None?;
        return;
      }
      if lastActionKind.value != kind {
        lastActionKind := Some(kind);
        failStreak := None;
      }
    }

    method RegisterSuccessfulConnection(index: nat, now: Instant)
      modifies this
      ensures Value() == WithSuccess(old(Value()), index, now)
      ensures lastActionKind.Some? ==> TrackerOk(Value())
    {
      failStreak := None;
      lastSuccessfulAttempt := Some(Success(index, now));
    }

    method RegisterFailedAttempt(code: int, now: Instant)
      modifies this
      ensures Value() == WithFailure(old(Value()), code, now)
      ensures lastActionKind.Some? ==> TrackerOk(Value())
    {
      if failStreak.None? {
        failStreak := Some(FailStreak(1, 1, now, now, code));
        return;
      }
      var streak := failStreak.value;
      if streak.code != code {
        failStreak := Some(FailStreak(1, 1, now, now, code));
        return;
      }
      streak := streak.(count := streak.count + 1);
      streak := streak.(mult := if 2 * streak.mult > U32_MAX then U32_MAX else 2 * streak.mult);
      streak := streak.(lastTry := now);
      failStreak := Some(streak);
    }
  }

  // ---- Closed form of the backoff --------------------------------------------------------------

  /** The tracker after failures with the same code at the given times. */
  function AfterFailures(t: Tracker, code: int, times: seq<Instant>): Tracker {
    if times == [] then t
    else WithFailure(AfterFailures(t, code, times[..|times| - 1]), code, times[|times| - 1])
  }

  /** After `n` failures in a row with the same code the multiplier is the saturated power of two. */
  lemma {:induction false} StreakClosedForm(t: Tracker, code: int, times: seq<Instant>)
    requires times != [] && (t.failStreak.None? || t.failStreak.value.code != code)
    ensures var n := |times|;
            AfterFailures(t, code, times) ==
            t.(failStreak := Some(FailStreak(n, Min(Pow2(n - 1), U32_MAX), times[0], times[n - 1], code)))
  {
    if |times| > 1 {
      StreakClosedForm(t, code, times[..|times| - 1]);
    }
  }

  /** The timeout without any saturation. */
  function IdealTimeout(base: nat, n: nat): nat
    requires n > 0
  {
    Min(SENTINEL_BACKOFF_MAX_DURATION, base * Pow2(n - 1))
  }

  function TimeoutAfter(base: nat, n: nat): nat
    requires n > 0
  {
    Min(SENTINEL_BACKOFF_MAX_DURATION, base * Min(Pow2(n - 1), U32_MAX))
  }

  lemma TimeoutAfterFailures(t: Tracker, code: int, times: seq<Instant>, base: nat)
    requires times != [] && (t.failStreak.None? || t.failStreak.value.code != code)
    ensures StreakTimeout(AfterFailures(t, code, times), base) == TimeoutAfter(base, |times|)
  {
    StreakClosedForm(t, code, times);
  }

  lemma MulMonotone(a: nat, b: nat, c: nat)
    requires b <= c
    ensures a * b <= a * c
  {
    assert a * c == a * b + a * (c - b);
  }

  /** The saturation of the 32-bit multiplier is never observable exactly when the base is zero or
      already reaches the maximum at the saturated multiplier. */
  lemma SaturationInvisibleIff(base: nat)
    ensures (forall n: nat :: n > 0 ==> TimeoutAfter(base, n) == IdealTimeout(base, n))
            <==> base == 0 || base * U32_MAX >= SENTINEL_BACKOFF_MAX_DURATION
  {
    if base == 0 || base * U32_MAX >= SENTINEL_BACKOFF_MAX_DURATION {
      forall n: nat | n > 0 ensures TimeoutAfter(base, n) == IdealTimeout(base, n) {
        if Pow2(n - 1) > U32_MAX {
          MulMonotone(base, U32_MAX, Pow2(n - 1));
        }
      }
    } else {
      Pow2Of32();
      MulMonotone(base, U32_MAX + 1, Pow2(32));
      assert base * (U32_MAX + 1) == base * U32_MAX + base;
      assert TimeoutAfter(base, 33) == base * U32_MAX;
      assert IdealTimeout(base, 33) > base * U32_MAX;
    }
  }

  lemma Pow2Of32()
    ensures Pow2(32) == U32_MAX + 1
  {
    assert Pow2(8) == 256;
    assert Pow2(16) == 65536;
    assert Pow2(24) == 16777216;
  }

  /** With the base used by the sentinel, retries follow the doubling sequence up to ten minutes. */
  lemma ShortRetryIsIdeal(n: nat)
    requires n > 0
    ensures TimeoutAfter(SENTINEL_SHORT_RETRY, n) == IdealTimeout(SENTINEL_SHORT_RETRY, n)
  {
    SaturationInvisibleIff(SENTINEL_SHORT_RETRY);
  }

  // ---- Runs on an instance that is not the leader -----------------------------------------------

  /** What happened to the request of one loop iteration. A request that failed for reasons of
      compare-and-swap counts as a successful connection. */
  datatype Outcome = Connected | Failed(code: int)

  /** One iteration while our target state is Offline: applied index and clock when the conditions
      are checked, replication error, and the outcome and time of the request if one is sent. */
  datatype Turn = Turn(applied: nat, now: Instant, replicationBroken: bool, outcome: Outcome, doneAt: Instant)

  predicate MaySend(t: Tracker, turn: Turn) {
    && BackoffPassed(t, SENTINEL_SHORT_RETRY, turn.now)
    && BarrierPassed(t, turn.applied, turn.now)
    && (!turn.replicationBroken || LongWaitPassed(t, SENTINEL_REPLICATION_BROKEN_WAIT, turn.now))
  }

  function TakeTurn(t: Tracker, turn: Turn): Tracker {
    var t := WithAction(t, AutoOnlineBySelf);
    if !MaySend(t, turn) then t
    else match turn.outcome
      case Connected => WithSuccess(t, turn.applied, turn.doneAt)
      case Failed(code) => WithFailure(t, code, turn.doneAt)
  }

  function Run(turns: seq<Turn>): Tracker {
    if turns == [] then NEW_TRACKER else TakeTurn(Run(turns[..|turns| - 1]), turns[|turns| - 1])
  }

  predicate Registers(t: Tracker, turn: Turn) {
    MaySend(WithAction(t, AutoOnlineBySelf), turn) && turn.outcome.Connected?
  }

  /** The successful connections registered during the run, in order. */
  function Successes(turns: seq<Turn>): seq<Success> {
    if turns == [] then []
    else
      var before, turn := turns[..|turns| - 1], turns[|turns| - 1];
      if Registers(Run(before), turn) then Successes(before) + [Success(turn.applied, turn.doneAt)]
      else Successes(before)
  }

  /** The applied index never goes back, and every request ends after it started and before the
      next iteration. */
  predicate Forward(turns: seq<Turn>) {
    && (forall i :: 0 <= i < |turns| ==> turns[i].now <= turns[i].doneAt)
    && (forall i, j :: 0 <= i < j < |turns| ==> turns[i].applied <= turns[j].applied && turns[i].doneAt <= turns[j].now)
  }

  lemma ForwardPrefix(turns: seq<Turn>)
    requires Forward(turns) && turns != []
    ensures Forward(turns[..|turns| - 1])
  {
  }

  lemma {:induction false} LastSuccessOfRun(turns: seq<Turn>)
    ensures var ss := Successes(turns); Run(turns).lastSuccess == if ss == [] then None else Some(ss[|ss| - 1])
    ensures TrackerOk(Run(turns))
  {
    if turns != [] {
      LastSuccessOfRun(turns[..|turns| - 1]);
    }
  }

  lemma {:induction false} SuccessesAreTurns(turns: seq<Turn>)
    ensures forall s :: s in Successes(turns) ==>
                        exists i :: 0 <= i < |turns| && s == Success(turns[i].applied, turns[i].doneAt)
  {
    if turns != [] {
      var before := turns[..|turns| - 1];
      SuccessesAreTurns(before);
      forall s | s in Successes(turns)
        ensures exists i :: 0 <= i < |turns| && s == Success(turns[i].applied, turns[i].doneAt)
      {
        if s in Successes(before) {
          var i :| 0 <= i < |before| && s == Success(before[i].applied, before[i].doneAt);
          assert turns[i] == before[i];
        } else {
          assert s == Success(turns[|turns| - 1].applied, turns[|turns| - 1].doneAt);
        }
      }
    }
  }

  // ---- Every retry of a run waits for the doubled timeout ---------------------------------------

  /** A request that was sent: when it was decided and whether replication was broken then, how it
      ended, and when. */
  datatype Sent = Sent(now: Instant, replicationBroken: bool, outcome: Outcome, doneAt: Instant)

  function SentIn(turn: Turn): Sent {
    Sent(turn.now, turn.replicationBroken, turn.outcome, turn.doneAt)
  }

  /** The requests sent during the run, in order. */
  function SentRequests(turns: seq<Turn>): seq<Sent> {
    if turns == [] then []
    else
      var before, turn := turns[..|turns| - 1], turns[|turns| - 1];
      if MaySend(WithAction(Run(before), AutoOnlineBySelf), turn)
      then SentRequests(before) + [SentIn(turn)]
      else SentRequests(before)
  }

  /** The last `n` requests, and no more, failed in a row with the same code. */
  predicate FailedInARow(ss: seq<Sent>, n: nat, code: int) {
    && n <= |ss|
    && (forall i :: |ss| - n <= i < |ss| ==> ss[i].outcome == Failed(code))
    && (n < |ss| ==> ss[|ss| - n - 1].outcome != Failed(code))
  }

  /** The streak that the tracker remembers is the one of the requests sent. */
  predicate Remembers(streak: Option<FailStreak>, ss: seq<Sent>) {
    match streak
    case None => ss == [] || ss[|ss| - 1].outcome.Connected?
    case Some(s) =>
      && s.count > 0 && FailedInARow(ss, s.count, s.code) && s.mult == Min(Pow2(s.count - 1), U32_MAX)
      && s.start == ss[|ss| - s.count].doneAt && s.lastTry == ss[|ss| - 1].doneAt
  }

  lemma FailureIsRemembered(t: Tracker, ss: seq<Sent>, sent: Sent, code: int)
    requires Remembers(t.failStreak, ss) && sent.outcome == Failed(code)
    ensures Remembers(WithFailure(t, code, sent.doneAt).failStreak, ss + [sent])
  {
  }

  lemma {:induction false} RunRemembers(turns: seq<Turn>)
    ensures Remembers(Run(turns).failStreak, SentRequests(turns))
    ensures Run(turns).lastAction.Some? ==> Run(turns).lastAction == Some(AutoOnlineBySelf)
  {
    if turns != [] {
      var before, turn := turns[..|turns| - 1], turns[|turns| - 1];
      RunRemembers(before);
      LastSuccessOfRun(before);
      var t := WithAction(Run(before), AutoOnlineBySelf);
      assert t.failStreak == Run(before).failStreak;
      if MaySend(t, turn) && turn.outcome.Failed? {
        FailureIsRemembered(t, SentRequests(before), SentIn(turn), turn.outcome.code);
      }
    }
  }

  lemma RowIsUnique(ss: seq<Sent>, n: nat, code: int, n': nat, code': int)
    requires n > 0 && n' > 0 && FailedInARow(ss, n, code) && FailedInARow(ss, n', code')
    ensures n == n' && code == code'
  {
    assert ss[|ss| - 1].outcome == Failed(code) && ss[|ss| - 1].outcome == Failed(code');
  }

  /** In every run, the request after `n` failures in a row with the same code is sent more than
      0.3 seconds times two to the power of `n - 1` after the last of them, up to ten minutes. */
  lemma {:induction false} RetriesAreSpaced(turns: seq<Turn>, k: nat, n: nat, code: int)
    requires var ss := SentRequests(turns); 0 < n <= k < |ss| && FailedInARow(ss[..k], n, code)
    ensures var ss := SentRequests(turns); ss[k].now > ss[k - 1].doneAt + IdealTimeout(SENTINEL_SHORT_RETRY, n)
  {
    var ss := SentRequests(turns);
    var before, turn := turns[..|turns| - 1], turns[|turns| - 1];
    var earlier := SentRequests(before);
    if k < |earlier| {
      assert ss[..k] == earlier[..k];
      RetriesAreSpaced(before, k, n, code);
    } else {
      assert ss[..k] == earlier;
      RunRemembers(before);
      LastSuccessOfRun(before);
      assert earlier[k - 1].outcome == Failed(code);
      var s := Run(before).failStreak.value;
      RowIsUnique(earlier, n, code, s.count, s.code);
      ShortRetryIsIdeal(n);
      assert BackoffPassed(Run(before), SENTINEL_SHORT_RETRY, turn.now);
    }
  }

  lemma {:induction false} LastSentIsLastAttempt(turns: seq<Turn>)
    ensures var ss := SentRequests(turns);
            ss != [] ==> LastAttempt(Run(turns)).Some? && ss[|ss| - 1].doneAt <= LastAttempt(Run(turns)).value
  {
    if turns != [] {
      var before := turns[..|turns| - 1];
      LastSentIsLastAttempt(before);
      LastSuccessOfRun(before);
      RunRemembers(before);
    }
  }

  /** In every run, while replication is broken requests are at least ten minutes apart. */
  lemma {:induction false} BrokenReplicationWaits(turns: seq<Turn>, k: nat)
    requires var ss := SentRequests(turns); 0 < k < |ss| && ss[k].replicationBroken
    ensures var ss := SentRequests(turns); ss[k].now >= ss[k - 1].doneAt + SENTINEL_REPLICATION_BROKEN_WAIT
  {
    var before := turns[..|turns| - 1];
    if k < |SentRequests(before)| {
      BrokenReplicationWaits(before, k);
    } else {
      LastSentIsLastAttempt(before);
      LastSuccessOfRun(before);
      RunRemembers(before);
    }
  }

  // ---- The barrier between successes --------------------------------------------------------------

  /** Consecutive registered connections are at increasing indexes or more than an hour apart. */
  predicate Spaced(a: Success, b: Success) {
    a.index <= b.index && a.time <= b.time && (a.index < b.index || b.time - a.time > RAFT_LOG_BARRIER_TIMEOUT)
  }

  /** What was registered before an iteration is not later than it. */
  lemma SuccessIsEarlier(turns: seq<Turn>, s: Success)
    requires Forward(turns) && turns != [] && s in Successes(turns[..|turns| - 1])
    ensures s.index <= turns[|turns| - 1].applied && s.time <= turns[|turns| - 1].now
  {
    var before := turns[..|turns| - 1];
    SuccessesAreTurns(before);
    var i :| 0 <= i < |before| && s == Success(before[i].applied, before[i].doneAt);
    assert turns[i] == before[i];
  }

  lemma NextSuccessIsSpaced(turns: seq<Turn>)
    requires Forward(turns) && turns != []
    requires var before := turns[..|turns| - 1];
             Registers(Run(before), turns[|turns| - 1]) && Successes(before) != []
    ensures var turn, ss := turns[|turns| - 1], Successes(turns[..|turns| - 1]);
            Spaced(ss[|ss| - 1], Success(turn.applied, turn.doneAt))
  {
    var before := turns[..|turns| - 1];
    var ss := Successes(before);
    LastSuccessOfRun(before);
    SuccessIsEarlier(turns, ss[|ss| - 1]);
  }

  predicate AllSpaced(ss: seq<Success>) {
    forall k :: 0 < k < |ss| ==> Spaced(ss[k - 1], ss[k])
  }

  lemma SpacedExtends(ss: seq<Success>, s: Success)
    requires AllSpaced(ss) && (ss != [] ==> Spaced(ss[|ss| - 1], s))
    ensures AllSpaced(ss + [s])
  {
    var all := ss + [s];
    forall k | 0 < k < |all| ensures Spaced(all[k - 1], all[k]) {
      if k < |ss| {
        assert Spaced(ss[k - 1], ss[k]);
        assert all[k - 1] == ss[k - 1] && all[k] == ss[k];
      } else {
        assert all[k - 1] == ss[|ss| - 1] && all[k] == s;
      }
    }
  }

  lemma {:induction false} SuccessesAreSpaced(turns: seq<Turn>)
    requires Forward(turns)
    ensures AllSpaced(Successes(turns))
  {
    if turns != [] {
      var before, turn := turns[..|turns| - 1], turns[|turns| - 1];
      ForwardPrefix(turns);
      SuccessesAreSpaced(before);
      if Registers(Run(before), turn) {
        if Successes(before) != [] {
          NextSuccessIsSpaced(turns);
        }
        SpacedExtends(Successes(before), Success(turn.applied, turn.doneAt));
      }
    }
  }

  lemma HourMore(total: nat, gap: nat)
    requires gap > RAFT_LOG_BARRIER_TIMEOUT
    ensures (total + gap) / RAFT_LOG_BARRIER_TIMEOUT >= total / RAFT_LOG_BARRIER_TIMEOUT + 1
  {
  }

  lemma {:induction false} SpacedIsFew(ss: seq<Success>)
    requires ss != [] && AllSpaced(ss)
    ensures var first, last := ss[0], ss[|ss| - 1];
            && first.index <= last.index && first.time <= last.time
            && |ss| <= 1 + (last.index - first.index) + (last.time - first.time) / RAFT_LOG_BARRIER_TIMEOUT
    decreases |ss|
  {
    if |ss| > 1 {
      var init := ss[..|ss| - 1];
      SpacedIsFew(init);
      var first, prev, last := ss[0], ss[|ss| - 2], ss[|ss| - 1];
      assert Spaced(ss[|ss| - 2], ss[|ss| - 1]);
      var earlier, total := prev.time - first.time, last.time - first.time;
      assert init[0] == first && init[|init| - 1] == prev;
      assert |ss| <= 2 + (prev.index - first.index) + earlier / RAFT_LOG_BARRIER_TIMEOUT;
      if last.time - prev.time > RAFT_LOG_BARRIER_TIMEOUT {
        HourMore(earlier, last.time - prev.time);
        assert total / RAFT_LOG_BARRIER_TIMEOUT >= earlier / RAFT_LOG_BARRIER_TIMEOUT + 1;
      } else {
        DivMonotone(earlier, total);
      }
    }
  }

  lemma DivMonotone(a: nat, b: nat)
    requires a <= b
    ensures a / RAFT_LOG_BARRIER_TIMEOUT <= b / RAFT_LOG_BARRIER_TIMEOUT
  {
  }

  /** The barrier bounds request storms: over any run on an instance that is not the leader, the
      registered connections are at most one more than the applied entries and full hours between
      the first and the last of them. */
  lemma BarrierBoundsRequests(turns: seq<Turn>)
    requires Forward(turns) && Successes(turns) != []
    ensures var ss := Successes(turns); var first, last := ss[0], ss[|ss| - 1];
            && first.index <= last.index && first.time <= last.time
            && |ss| <= 1 + (last.index - first.index) + (last.time - first.time) / RAFT_LOG_BARRIER_TIMEOUT
  {
    SuccessesAreSpaced(turns);
    SpacedIsFew(Successes(turns));
  }
}

/**
 The failure detector (src/reachability.rs): the pruned history of applied indexes, the
 verdict on an instance, and the spacing of heartbeats to an instance that does not answer.

 Instants and durations are nanoseconds; the clock of each call is a parameter.
 */
module Reachability {
  import opened Options
  import opened Naturals

  type RaftId = nat

  type Instant = nat

  /** When we applied a raft index. */
  datatype Mark = Mark(index: nat, time: Instant)

  type History = seq<Mark>

  /** A duration, where `Forever` is `Duration::MAX`. */
  datatype Age = For(duration: nat) | Forever

  predicate Below(age: Age, timeout: nat) {
    age.For? && age.duration < timeout
  }

  function SaturatingSub(a: nat, b: nat): nat {
    if a < b then 0 else a - b
  }

  // ---- History of applied indexes ----------------------------------------------------------

  /** How many entries are dropped from the front, counted from `i` on. */
  function Dropped(h: History, limit: Instant, i: nat): nat
    requires i <= |h|
    ensures i <= Dropped(h, limit, i) <= |h|
    decreases |h| - i
  {
    if |h| - i > 2 && h[i].time <= limit then Dropped(h, limit, i + 1) else i
  }

  /** Effect of `cleanup_applied_index_history`. */
  function Prune(h: History, now: Instant, timeout: nat): History {
    h[Dropped(h, SaturatingSub(now, timeout), 0)..]
  }

  function Find(h: History, index: nat): Option<Instant> {
    if h == [] then None
    else if h[0].index == index then Some(h[0].time)
    else Find(h[1..], index)
  }

  /** `since_we_applied_this`; an index that is not in the history counts as applied just now. */
  function SinceWeApplied(h: History, now: Instant, index: nat): Option<Age> {
    if h == [] then None
    else if index < h[0].index then Some(Forever)
    else match Find(h, index)
      case Some(time) => Some(For(SaturatingSub(now, time)))
      case None => Some(For(0))
  }

  // ---- The verdict on an instance ----------------------------------------------------------

  datatype Info = Info(
    lastSuccess: Option<Instant>,
    lastAttempt: Option<Instant>,
    failStreakStart: Option<Instant>,
    failStreak: nat,
    lastApplied: Option<Mark>,
    isLeaderUnknown: bool,
    replicationError: bool,
    isReported: bool)

  const NEW_INFO: Info := Info(None, None, None, 0, None, false, false, false)

  datatype Verdict = Undecided | Reachable | Unreachable

  function CheckViaRpc(timeout: nat, info: Info, now: Instant): Verdict {
    match info.lastSuccess
    case Some(success) =>
      if info.failStreak == 0 then Reachable
      else if SaturatingSub(now, success) > timeout then Unreachable else Reachable
    case None =>
      if info.failStreakStart.Some? && SaturatingSub(now, info.failStreakStart.value) > timeout
      then Unreachable else Undecided
  }

  /** `check_reachability` with the history `h`. */
  function Check(timeout: nat, checkReplication: bool, info: Info, applied: nat, h: History, now: Instant): Verdict {
    var viaRpc := CheckViaRpc(timeout, info, now);
    if viaRpc.Unreachable? then viaRpc
    else if checkReplication && info.replicationError then Unreachable
    else if info.lastApplied.None? then viaRpc
    else
      var their := info.lastApplied.value;
      if their.index >= applied then viaRpc
      else if SaturatingSub(now, their.time) < timeout then viaRpc
      else match SinceWeApplied(h, now, their.index + 1)
        case None => viaRpc
        case Some(age) => if Below(age, timeout) then viaRpc else Unreachable
  }

  // ---- Communication results ---------------------------------------------------------------

  /** The streak after an attempt. */
  function Attempted(info: Info, now: Instant, success: bool): Info {
    var info := info.(lastAttempt := Some(now), isReported := false);
    if success then info.(lastSuccess := Some(now), failStreak := 0, failStreakStart := None)
    else info.(failStreakStart := if info.failStreak == 0 then Some(now) else info.failStreakStart,
               failStreak := info.failStreak + 1)
  }

  /** The applied index of the instance, with the time at which it last changed. */
  function NotedApplied(known: Option<Mark>, applied: Option<nat>, now: Instant): Option<Mark> {
    if applied.None? || (known.Some? && known.value.index == applied.value) then known
    else Some(Mark(applied.value, now))
  }

  /** Effect of `report_communication_result` on the entry of the instance. */
  function Reported(info: Info, now: Instant, success: bool, applied: Option<nat>, leaderUnknown: Option<bool>): Info {
    Attempted(info, now, success).(
      isLeaderUnknown := if leaderUnknown.Some? then leaderUnknown.value else info.isLeaderUnknown,
      lastApplied := NotedApplied(info.lastApplied, applied, now))
  }

  /** A failure streak has a start and a last attempt, and attempts follow the last success. */
  predicate InfoOk(info: Info) {
    && (info.failStreak > 0 <==> info.failStreakStart.Some?)
    && (info.failStreak > 0 || info.lastSuccess.Some? ==> info.lastAttempt.Some?)
    && (info.lastSuccess.Some? ==> info.lastSuccess.value <= info.lastAttempt.value)
  }

  const MAX_HEARTBEAT_PERIOD: nat := 5_000_000_000

  /** `should_send_heartbeat_this_tick`; the requirement is what its `expect` relies on. */
  predicate ShouldSend(info: Option<Info>, isLearner: bool, timeout: nat, now: Instant)
    requires info.Some? ==> InfoOk(info.value)
  {
    match info
    case None => true
    case Some(info) =>
      if info.failStreak == 0 then
        if info.lastAttempt.Some? && !info.isLeaderUnknown && isLearner
        then now > info.lastAttempt.value + timeout / 3
        else true
      else if info.lastSuccess.None? then true
      else
        var delay := Min(info.lastAttempt.value - info.lastSuccess.value, MAX_HEARTBEAT_PERIOD);
        now > info.lastAttempt.value + delay
  }

  /** An instance that a report would name: found unreachable and not reported since its last message. */
  predicate Reportable(info: Info, timeout: nat, checkReplication: bool, applied: nat, h: History, now: Instant) {
    !info.isReported && Check(timeout, checkReplication, info, applied, h, now).Unreachable?
  }

  function ToReport(infos: map<RaftId, Info>, timeout: nat, checkReplication: bool, applied: nat, h: History,
                    now: Instant): set<RaftId>
  {
    set i | i in infos && Reportable(infos[i], timeout, checkReplication, applied, h, now)
  }

  function MarkReported(infos: map<RaftId, Info>, ids: set<RaftId>): map<RaftId, Info> {
    map i | i in infos :: if i in ids then infos[i].(isReported := true) else infos[i]
  }

  lemma MarkOne(infos: map<RaftId, Info>, ids: set<RaftId>, id: RaftId)
    requires id in infos && id !in ids
    ensures MarkReported(infos, ids)[id] == infos[id]
    ensures MarkReported(infos, ids + {id}) == MarkReported(infos, ids)[id := infos[id].(isReported := true)]
  {
  }

  class InstanceReachabilityManager {
    const timeout: nat
    var infos: map<RaftId, Info>
    var laggingApplied: History
    var applied: nat

    ghost predicate Valid()
      reads this
    {
      forall i :: i in infos ==> InfoOk(infos[i])
    }

    constructor (timeout: nat, applied: nat)
      ensures Valid() && infos == map[] && laggingApplied == [] && this.applied == applied && this.timeout == timeout
    {
      this.timeout := timeout;
      this.applied := applied;
      infos := map[];
      laggingApplied := [];
    }

    method CleanupAppliedIndexHistory(now: Instant)
      modifies this`laggingApplied
      ensures laggingApplied == Prune(old(laggingApplied), now, timeout)
    {
      var tooFarBack := SaturatingSub(now, timeout);
      ghost var h, dropped := laggingApplied, 0;
      while laggingApplied != []
        invariant dropped <= |h| && laggingApplied == h[dropped..]
        invariant Dropped(h, tooFarBack, 0) == Dropped(h, tooFarBack, dropped)
        decreases |laggingApplied|
      {
        if laggingApplied[0].time > tooFarBack {
          break;
        }
        if |laggingApplied| <= 2 {
          break;
        }
        laggingApplied := laggingApplied[1..];
        dropped := dropped + 1;
      }
    }

    method OnApplied(newApplied: nat, now: Instant)
      modifies this`laggingApplied, this`applied
      ensures applied == newApplied
      ensures laggingApplied == Prune(old(laggingApplied) + [Mark(newApplied, now)], now, timeout)
    {
      applied := newApplied;
      laggingApplied := laggingApplied + [Mark(newApplied, now)];
      CleanupAppliedIndexHistory(now);
    }

    method SinceWeAppliedThis(now: Instant, index: nat) returns (age: Option<Age>)
      ensures age == SinceWeApplied(laggingApplied, now, index)
    {
      if laggingApplied == [] {
        return None;
      }
      if index < laggingApplied[0].index {
        return Some(Forever);
      }
      for i := 0 to |laggingApplied|
        invariant Find(laggingApplied, index) == Find(laggingApplied[i..], index)
      {
        assert laggingApplied[i..][1..] == laggingApplied[i + 1..];
        if laggingApplied[i].index == index {
          return Some(For(SaturatingSub(now, laggingApplied[i].time)));
        }
      }
      age := Some(For(0));
    }

    static method CheckReachabilityViaRpc(timeout: nat, info: Info, now: Instant) returns (v: Verdict)
      ensures v == CheckViaRpc(timeout, info, now)
    {
      if info.lastSuccess.Some? {
        if info.failStreak == 0 {
          return Reachable;
        }
        var sinceSuccess := SaturatingSub(now, info.lastSuccess.value);
        if sinceSuccess > timeout {
          return Unreachable;
        } else {
          return Reachable;
        }
      }
      if info.failStreakStart.Some? {
        var sinceStart := SaturatingSub(now, info.failStreakStart.value);
        if sinceStart > timeout {
          return Unreachable;
        }
      }
      return Undecided;
    }

    method CheckReachability(checkReplication: bool, info: Info, now: Instant) returns (v: Verdict)
      ensures v == Check(timeout, checkReplication, info, applied, laggingApplied, now)
    {
      v := CheckReachabilityViaRpc(timeout, info, now);
      if v == Unreachable {
        return;
      }
      if checkReplication {
        if info.replicationError {
          return Unreachable;
        }
      }
      if info.lastApplied.None? {
        return;
      }
      var their := info.lastApplied.value;
      if their.index >= applied {
        return;
      }
      if SaturatingSub(now, their.time) < timeout {
        return;
      }
      var age := SinceWeAppliedThis(now, their.index + 1);
      if age.None? {
        return;
      }
      if Below(age.value, timeout) {
        return;
      }
      v := Unreachable;
    }

    /** The instances found unreachable that were not reported yet; they are marked as reported. */
    method TakeUnreachablesToReport(checkReplication: bool, now: Instant) returns (res: set<RaftId>)
      requires Valid()
      modifies this`infos
      ensures Valid()
      ensures res == ToReport(old(infos), timeout, checkReplication, applied, laggingApplied, now)
      ensures infos == MarkReported(old(infos), res)
    {
      res := {};
      var left := infos.Keys;
      ghost var before := infos;
      while left != {}
        invariant left <= before.Keys && res <= before.Keys - left
        invariant infos == MarkReported(before, res)
        invariant forall i :: i in before && i !in left ==>
                    (i in res <==> Reportable(before[i], timeout, checkReplication, applied, laggingApplied, now))
        decreases |left|
      {
        var id :| id in left;
        left := left - {id};
        if infos[id].isReported {
          continue;
        }
        var status := CheckReachability(checkReplication, infos[id], now);
        if status == Unreachable {
          MarkOne(before, res, id);
          res := res + {id};
          infos := infos[id := infos[id].(isReported := true)];
        }
      }
    }

    method ShouldSendHeartbeatThisTick(to: RaftId, isLearner: bool, now: Instant) returns (send: bool)
      requires Valid()
      ensures send == ShouldSend(if to in infos then Some(infos[to]) else None, isLearner, timeout, now)
    {
      if to !in infos {
        return true;
      }
      var info := infos[to];
      if info.failStreak == 0 {
        if info.lastAttempt.Some? {
          if info.isLeaderUnknown {
            return true;
          }
          if isLearner {
            var learnerPeriod := timeout / 3;
            return now > info.lastAttempt.value + learnerPeriod;
          }
        }
        return true;
      }
      if info.lastSuccess.None? {
        return true;
      }
      var sinceLastSuccess := info.lastAttempt.value - info.lastSuccess.value;
      var delay := if sinceLastSuccess < MAX_HEARTBEAT_PERIOD then sinceLastSuccess else MAX_HEARTBEAT_PERIOD;
      send := now > info.lastAttempt.value + delay;
    }

    method ReportCommunicationResult(id: RaftId, now: Instant, success: bool, applied: Option<nat>,
                                     leaderUnknown: Option<bool>)
      requires Valid()
      requires id in infos && infos[id].lastAttempt.Some? ==> infos[id].lastAttempt.value <= now
      modifies this`infos
      ensures Valid()
      ensures var before := if id in old(infos) then old(infos)[id] else NEW_INFO;
              infos == old(infos)[id := Reported(before, now, success, applied, leaderUnknown)]
    {
      var info := if id in infos then infos[id] else NEW_INFO;
      ghost var before := info;
      info := info.(lastAttempt := Some(now), isReported := false);
      if leaderUnknown.Some? {
        info := info.(isLeaderUnknown := leaderUnknown.value);
      }
      if success {
        info := info.(lastSuccess := Some(now), failStreak := 0, failStreakStart := None);
      } else {
        if info.failStreak == 0 {
          info := info.(failStreakStart := Some(now));
        }
        info := info.(failStreak := info.failStreak + 1);
      }
      if applied.Some? {
        if info.lastApplied.None? || info.lastApplied.value.index != applied.value {
          info := info.(lastApplied := Some(Mark(applied.value, now)));
        }
      }
      assert info == Reported(before, now, success, applied, leaderUnknown);
      ReportKeepsInfoOk(before, now, success, applied, leaderUnknown);
      infos := infos[id := info];
    }
  }

  // ---- The pruned history gives the same verdicts as the full one ----------------------------

  datatype Event = Applied(now: Instant) | Cleaned(now: Instant)

  /** Runs the events on a history; `prune` tells whether entries are ever dropped. */
  function Run(start: nat, evs: seq<Event>, timeout: nat, prune: bool): History {
    if evs == [] then []
    else
      var before := Run(start, evs[..|evs| - 1], timeout, prune);
      var ev := evs[|evs| - 1];
      var h := if ev.Applied? then before + [Mark(AppliedIndex(start, evs), ev.now)] else before;
      if prune then Prune(h, ev.now, timeout) else h
  }

  /** Our applied index after the events: each application advances it by one. */
  function AppliedIndex(start: nat, evs: seq<Event>): nat {
    if evs == [] then start
    else AppliedIndex(start, evs[..|evs| - 1]) + (if evs[|evs| - 1].Applied? then 1 else 0)
  }

  function Clock(evs: seq<Event>): Instant {
    if evs == [] then 0 else evs[|evs| - 1].now
  }

  predicate ClockGrows(evs: seq<Event>) {
    forall i, j :: 0 <= i <= j < |evs| ==> evs[i].now <= evs[j].now
  }

  /** Consecutive indexes, the last being `last`, at nondecreasing times up to `now`. */
  predicate Sorted(h: History, last: nat, now: Instant) {
    && |h| <= last
    && (forall i :: 0 <= i < |h| ==> h[i].index == last + 1 - |h| + i && h[i].time <= now)
    && (forall i, j :: 0 <= i <= j < |h| ==> h[i].time <= h[j].time)
  }

  /** `kept` is what is left of `full` after dropping entries at most as late as `limit`. */
  predicate PrunedFrom(kept: History, full: History, limit: Instant) {
    && |kept| <= |full| && (forall i :: 0 <= i < |kept| ==> kept[i] == full[|full| - |kept| + i])
    && (forall i :: 0 <= i < |full| - |kept| ==> full[i].time <= limit)
    && (full != [] ==> kept != [])
  }

  /** What is dropped is old, two entries always stay, and dropping goes on as long as it may. */
  lemma {:induction false} DroppedIsOld(h: History, limit: Instant, i: nat)
    requires i <= |h|
    ensures var r := Dropped(h, limit, i);
            && (forall k :: i <= k < r ==> h[k].time <= limit)
            && (r > i ==> |h| - r >= 2) && (|h| - r <= 2 || h[r].time > limit)
    decreases |h| - i
  {
    if |h| - i > 2 && h[i].time <= limit {
      DroppedIsOld(h, limit, i + 1);
    }
  }

  lemma PruneDrops(h: History, full: History, limit: Instant, now: Instant, timeout: nat)
    requires PrunedFrom(h, full, limit) && limit <= SaturatingSub(now, timeout)
    ensures PrunedFrom(Prune(h, now, timeout), full, SaturatingSub(now, timeout))
  {
    var r := Dropped(h, SaturatingSub(now, timeout), 0);
    DroppedIsOld(h, SaturatingSub(now, timeout), 0);
    var gone := |full| - |h|;
    forall k | 0 <= k < gone + r ensures full[k].time <= SaturatingSub(now, timeout) {
      if k >= gone {
        assert full[k] == h[k - gone];
      }
    }
  }

  lemma MarkKeepsSorted(h: History, last: nat, clock: Instant, now: Instant)
    requires Sorted(h, last, clock) && clock <= now
    ensures Sorted(h, last, now) && Sorted(h + [Mark(last + 1, now)], last + 1, now)
  {
  }

  lemma MarkKeepsPruned(kept: History, full: History, limit: Instant, mark: Mark)
    requires PrunedFrom(kept, full, limit)
    ensures PrunedFrom(kept + [mark], full + [mark], limit)
  {
  }

  lemma ClockBefore(evs: seq<Event>)
    requires ClockGrows(evs) && evs != []
    ensures ClockGrows(evs[..|evs| - 1]) && Clock(evs[..|evs| - 1]) <= Clock(evs)
  {
    if |evs| > 1 {
      assert evs[|evs| - 2].now <= evs[|evs| - 1].now;
    }
  }

  /** The history with the mark that an event may add. */
  function Noted(h: History, ev: Event, applied: nat): History {
    if ev.Applied? then h + [Mark(applied + 1, ev.now)] else h
  }

  /** One more event, as applied to the history so far. */
  lemma RunStep(start: nat, evs: seq<Event>, timeout: nat, prune: bool)
    requires evs != []
    ensures var before, ev := evs[..|evs| - 1], evs[|evs| - 1];
            var h := Noted(Run(start, before, timeout, prune), ev, AppliedIndex(start, before));
            Run(start, evs, timeout, prune) == if prune then Prune(h, ev.now, timeout) else h
  {
  }

  lemma {:induction false} FullIsSorted(start: nat, evs: seq<Event>, timeout: nat)
    requires ClockGrows(evs)
    ensures Sorted(Run(start, evs, timeout, false), AppliedIndex(start, evs), Clock(evs))
  {
    if evs != [] {
      var before := evs[..|evs| - 1];
      ClockBefore(evs);
      FullIsSorted(start, before, timeout);
      RunStep(start, evs, timeout, false);
      MarkKeepsSorted(Run(start, before, timeout, false), AppliedIndex(start, before), Clock(before), Clock(evs));
    }
  }

  lemma NotedKeepsPruned(kept: History, full: History, limit: Instant, ev: Event, applied: nat)
    requires PrunedFrom(kept, full, limit)
    ensures PrunedFrom(Noted(kept, ev, applied), Noted(full, ev, applied), limit)
  {
    if ev.Applied? {
      MarkKeepsPruned(kept, full, limit, Mark(applied + 1, ev.now));
    }
  }

  lemma {:induction false} KeptIsPruned(start: nat, evs: seq<Event>, timeout: nat)
    requires ClockGrows(evs)
    ensures PrunedFrom(Run(start, evs, timeout, true), Run(start, evs, timeout, false),
                       SaturatingSub(Clock(evs), timeout))
  {
    if evs != [] {
      var before, ev := evs[..|evs| - 1], evs[|evs| - 1];
      ClockBefore(evs);
      KeptIsPruned(start, before, timeout);
      var kept, full := Run(start, before, timeout, true), Run(start, before, timeout, false);
      var limit, applied := SaturatingSub(Clock(before), timeout), AppliedIndex(start, before);
      NotedKeepsPruned(kept, full, limit, ev, applied);
      PruneDrops(Noted(kept, ev, applied), Noted(full, ev, applied), limit, ev.now, timeout);
      RunStep(start, evs, timeout, true);
      RunStep(start, evs, timeout, false);
    }
  }

  lemma HistoryInvariant(start: nat, evs: seq<Event>, timeout: nat)
    requires ClockGrows(evs)
    ensures Sorted(Run(start, evs, timeout, false), AppliedIndex(start, evs), Clock(evs))
    ensures PrunedFrom(Run(start, evs, timeout, true), Run(start, evs, timeout, false),
                       SaturatingSub(Clock(evs), timeout))
  {
    FullIsSorted(start, evs, timeout);
    KeptIsPruned(start, evs, timeout);
  }

  /** The deque is always sorted, as the source asserts after every application. */
  lemma DequeStaysSorted(start: nat, evs: seq<Event>, timeout: nat)
    requires ClockGrows(evs)
    ensures Sorted(Run(start, evs, timeout, true), AppliedIndex(start, evs), Clock(evs))
  {
    HistoryInvariant(start, evs, timeout);
  }

  lemma {:induction false} FindSorted(h: History, last: nat, now: Instant, i: nat)
    requires Sorted(h, last, now) && i < |h|
    ensures Find(h, h[i].index) == Some(h[i].time)
    decreases |h|
  {
    if i > 0 {
      FindSorted(h[1..], last, now, i - 1);
    }
  }

  /** An index that we applied is found, or is older than the history: the fallback for an unknown
      index is never taken for an index up to our own. */
  lemma AppliedIndexIsKnown(h: History, last: nat, now: Instant, index: nat)
    requires Sorted(h, last, now) && h != [] && h[0].index <= index <= last
    ensures SinceWeApplied(h, now, index) == Some(For(now - h[index - h[0].index].time))
  {
    FindSorted(h, last, now, index - h[0].index);
  }

  ghost predicate SameAnswers(kept: History, full: History, now: Instant, timeout: nat, last: nat) {
    forall index :: 0 <= index <= last ==> SameAnswer(kept, full, now, timeout, index)
  }

  predicate SameAnswer(kept: History, full: History, now: Instant, timeout: nat, index: nat) {
    match (SinceWeApplied(kept, now, index), SinceWeApplied(full, now, index))
    case (None, None) => true
    case (Some(a), Some(b)) => Below(a, timeout) == Below(b, timeout)
    case _ => false
  }

  /** Answers for an entry that was dropped, and for one that was kept. */
  lemma AnswerForIndex(kept: History, full: History, limit: Instant, last: nat, now: Instant, timeout: nat, index: nat)
    requires Sorted(full, last, now) && PrunedFrom(kept, full, limit) && full != [] && index <= last
    requires limit <= SaturatingSub(now, timeout)
    ensures index < full[0].index || kept[0].index <= index ==> SameAnswer(kept, full, now, timeout, index)
    ensures full[0].index <= index < kept[0].index ==>
              (SameAnswer(kept, full, now, timeout, index) <==> timeout <= now)
  {
    assert kept[0] == full[|full| - |kept|];
    if full[0].index <= index {
      AppliedIndexIsKnown(full, last, now, index);
      if kept[0].index <= index {
        AppliedIndexIsKnown(kept, last, now, index);
      }
    }
  }

  /** When our applied index became `index`. */
  function AppliedTime(start: nat, evs: seq<Event>, index: nat): Instant
    requires start < index <= AppliedIndex(start, evs)
  {
    var before := evs[..|evs| - 1];
    if index <= AppliedIndex(start, before) then AppliedTime(start, before, index) else evs[|evs| - 1].now
  }

  /** The full history records when each index was applied. */
  lemma {:induction false} FullHistoryTells(start: nat, evs: seq<Event>, timeout: nat, index: nat)
    requires start < index <= AppliedIndex(start, evs)
    ensures var full := Run(start, evs, timeout, false);
            && |full| == AppliedIndex(start, evs) - start
            && full[index - start - 1] == Mark(index, AppliedTime(start, evs, index))
  {
    FullHistoryLength(start, evs, timeout);
    var before := evs[..|evs| - 1];
    FullHistoryLength(start, before, timeout);
    if index <= AppliedIndex(start, before) {
      FullHistoryTells(start, before, timeout, index);
    }
  }

  lemma {:induction false} FullHistoryLength(start: nat, evs: seq<Event>, timeout: nat)
    ensures AppliedIndex(start, evs) == start + |Run(start, evs, timeout, false)|
  {
    if evs != [] {
      FullHistoryLength(start, evs[..|evs| - 1], timeout);
    }
  }

  /** Pruning is invisible exactly when the clock has reached the timeout or nothing was dropped. */
  lemma InvisibleIffNothingDropped(start: nat, evs: seq<Event>, timeout: nat, now: Instant)
    requires ClockGrows(evs) && Clock(evs) <= now
    ensures var kept, full := Run(start, evs, timeout, true), Run(start, evs, timeout, false);
            SameAnswers(kept, full, now, timeout, AppliedIndex(start, evs)) <==> (timeout <= now || kept == full)
  {
    HistoryInvariant(start, evs, timeout);
    var kept, full := Run(start, evs, timeout, true), Run(start, evs, timeout, false);
    var last := AppliedIndex(start, evs);
    if full != [] {
      forall index | 0 <= index <= last
        ensures timeout <= now || kept == full ==> SameAnswer(kept, full, now, timeout, index)
      {
        AnswerForIndex(kept, full, SaturatingSub(Clock(evs), timeout), last, now, timeout, index);
      }
      if kept != full {
        AnswerForIndex(kept, full, SaturatingSub(Clock(evs), timeout), last, now, timeout, full[0].index);
        assert SameAnswer(kept, full, now, timeout, full[0].index) <==> timeout <= now;
      }
    }
  }

  lemma PruneStops(h: History, now: Instant, timeout: nat)
    ensures var r := Prune(h, now, timeout); |r| <= 2 || r[0].time > SaturatingSub(now, timeout)
  {
    DroppedIsOld(h, SaturatingSub(now, timeout), 0);
  }

  /** A history of at most two entries is kept whole. */
  lemma {:induction false} ShortIsKept(start: nat, evs: seq<Event>, timeout: nat)
    requires |Run(start, evs, timeout, false)| <= 2
    ensures Run(start, evs, timeout, true) == Run(start, evs, timeout, false)
  {
    if evs != [] {
      RunStep(start, evs, timeout, false);
      RunStep(start, evs, timeout, true);
      ShortIsKept(start, evs[..|evs| - 1], timeout);
    }
  }

  lemma LateIsKept(start: nat, evs: seq<Event>, timeout: nat)
    requires ClockGrows(evs) && Clock(evs) < timeout
    requires Run(start, evs, timeout, false) != [] && Run(start, evs, timeout, false)[0].time > 0
    ensures Run(start, evs, timeout, true) == Run(start, evs, timeout, false)
  {
    HistoryInvariant(start, evs, timeout);
    var full := Run(start, evs, timeout, false);
    forall i | 0 <= i < |full| ensures full[i].time > 0 {
      assert full[0].time <= full[i].time;
    }
    NothingEarlyNothingDropped(Run(start, evs, timeout, true), full);
  }

  lemma LongIsCut(start: nat, evs: seq<Event>, timeout: nat)
    ensures var kept := Run(start, evs, timeout, true);
            |kept| <= 2 || kept[0].time > SaturatingSub(Clock(evs), timeout)
  {
    if evs != [] {
      var before, ev := evs[..|evs| - 1], evs[|evs| - 1];
      var h := Noted(Run(start, before, timeout, true), ev, AppliedIndex(start, before));
      PruneStops(h, ev.now, timeout);
      RunStep(start, evs, timeout, true);
    }
  }

  /** Before the clock reaches the timeout, nothing is dropped exactly when there are at most two entries
      or the first one has a positive time. */
  lemma NothingDroppedIff(start: nat, evs: seq<Event>, timeout: nat)
    requires ClockGrows(evs) && Clock(evs) < timeout
    ensures var kept, full := Run(start, evs, timeout, true), Run(start, evs, timeout, false);
            kept == full <==> |full| <= 2 || full[0].time > 0
  {
    if |Run(start, evs, timeout, false)| <= 2 {
      ShortIsKept(start, evs, timeout);
    } else if Run(start, evs, timeout, false)[0].time > 0 {
      LateIsKept(start, evs, timeout);
    } else {
      LongIsCut(start, evs, timeout);
    }
  }

  /** Exactly when pruning is invisible, in terms of the events: the clock has reached the timeout, or at
      most two entries were applied, or the first one was applied at a positive time. */
  lemma PruningIsInvisibleIff(start: nat, evs: seq<Event>, timeout: nat, now: Instant)
    requires ClockGrows(evs) && Clock(evs) <= now
    ensures SameAnswers(Run(start, evs, timeout, true), Run(start, evs, timeout, false), now, timeout,
                        AppliedIndex(start, evs))
            <==> (timeout <= now || AppliedIndex(start, evs) <= start + 2 || AppliedTime(start, evs, start + 1) > 0)
  {
    InvisibleIffNothingDropped(start, evs, timeout, now);
    FullHistoryLength(start, evs, timeout);
    if now < timeout {
      NothingDroppedIff(start, evs, timeout);
      if AppliedIndex(start, evs) > start + 2 {
        FullHistoryTells(start, evs, timeout, start + 1);
      }
    }
  }

  /** Three entries applied at clock zero: five nanoseconds later, with a timeout of ten, the first one
      is taken for too old to remember. */
  lemma PruningShowsAtClockZero()
    ensures var evs := [Applied(0), Applied(0), Applied(0)];
            ClockGrows(evs) && !SameAnswers(Run(0, evs, 10, true), Run(0, evs, 10, false), 5, 10, AppliedIndex(0, evs))
  {
    var evs := [Applied(0), Applied(0), Applied(0)];
    var two, one, none := [Applied(0), Applied(0)], [Applied(0)], [];
    assert evs[..2] == two && two[..1] == one && one[..0] == none;
    assert AppliedIndex(0, none) == 0 && AppliedIndex(0, one) == 1 && AppliedIndex(0, two) == 2;
    assert AppliedTime(0, evs, 1) == AppliedTime(0, two, 1) == AppliedTime(0, one, 1) == 0;
    PruningIsInvisibleIff(0, evs, 10, 5);
  }

  lemma NothingEarlyNothingDropped(kept: History, full: History)
    requires PrunedFrom(kept, full, 0) && forall i :: 0 <= i < |full| ==> full[i].time > 0
    ensures kept == full
  {
    if full != [] {
      assert full[0].time > 0;
    }
  }

  lemma {:induction false} TimesArePositive(start: nat, evs: seq<Event>, index: nat)
    requires start < index <= AppliedIndex(start, evs) && forall i :: 0 <= i < |evs| ==> evs[i].now > 0
    ensures AppliedTime(start, evs, index) > 0
  {
    if index <= AppliedIndex(start, evs[..|evs| - 1]) {
      TimesArePositive(start, evs[..|evs| - 1], index);
    }
  }

  /** The verdict on any instance is the one that the full history would give. */
  lemma VerdictRefinesFullHistory(start: nat, evs: seq<Event>, timeout: nat, now: Instant, checkReplication: bool,
                                  info: Info)
    requires ClockGrows(evs) && Clock(evs) <= now && forall i :: 0 <= i < |evs| ==> evs[i].now > 0
    ensures var applied := AppliedIndex(start, evs);
            Check(timeout, checkReplication, info, applied, Run(start, evs, timeout, true), now)
            == Check(timeout, checkReplication, info, applied, Run(start, evs, timeout, false), now)
  {
    if AppliedIndex(start, evs) > start {
      TimesArePositive(start, evs, start + 1);
    }
    PruningIsInvisibleIff(start, evs, timeout, now);
    var kept, full := Run(start, evs, timeout, true), Run(start, evs, timeout, false);
    if info.lastApplied.Some? && info.lastApplied.value.index < AppliedIndex(start, evs) {
      assert SameAnswer(kept, full, now, timeout, info.lastApplied.value.index + 1);
    }
  }

  /** No request to the instance succeeded for longer than the timeout, and the last one failed. */
  predicate Silent(info: Info, timeout: nat, now: Instant) {
    if info.lastSuccess.Some? then info.failStreak > 0 && now > info.lastSuccess.value + timeout
    else info.failStreakStart.Some? && now > info.failStreakStart.value + timeout
  }

  /** The instance did not get beyond the index in `their` for at least the timeout, although we
      applied the next entry that long ago, or before we began to take notes. */
  predicate Stuck(start: nat, evs: seq<Event>, timeout: nat, their: Mark, now: Instant) {
    && their.index < AppliedIndex(start, evs) && now >= their.time + timeout
    && start < AppliedIndex(start, evs)
    && (their.index < start || now >= AppliedTime(start, evs, their.index + 1) + timeout)
  }

  /** What the full history answers about the entry that an instance has to apply next. */
  lemma NextEntryAge(start: nat, evs: seq<Event>, timeout: nat, now: Instant, index: nat)
    requires ClockGrows(evs) && Clock(evs) <= now && index < AppliedIndex(start, evs)
    ensures var age := SinceWeApplied(Run(start, evs, timeout, false), now, index + 1);
            && (age.Some? <==> start < AppliedIndex(start, evs))
            && (age.Some? ==> (!Below(age.value, timeout) <==>
                                 index < start || now >= AppliedTime(start, evs, index + 1) + timeout))
  {
    FullIsSorted(start, evs, timeout);
    FullHistoryLength(start, evs, timeout);
    var full, last := Run(start, evs, timeout, false), AppliedIndex(start, evs);
    if full != [] {
      FullHistoryTells(start, evs, timeout, start + 1);
      if start <= index {
        FullHistoryTells(start, evs, timeout, index + 1);
        AppliedIndexIsKnown(full, last, now, index + 1);
      }
    }
  }

  /** The verdict on an instance, given what the history says about the entry it has to apply next. */
  lemma CheckMeaning(timeout: nat, checkReplication: bool, info: Info, applied: nat, h: History, now: Instant)
    requires info.lastApplied.Some? ==> info.lastApplied.value.time <= now
    ensures Check(timeout, checkReplication, info, applied, h, now).Unreachable? <==>
            || Silent(info, timeout, now)
            || (checkReplication && info.replicationError)
            || (info.lastApplied.Some? && LateFor(timeout, info.lastApplied.value, applied, h, now))
  {
  }

  predicate LateFor(timeout: nat, their: Mark, applied: nat, h: History, now: Instant) {
    var age := SinceWeApplied(h, now, their.index + 1);
    their.index < applied && now >= their.time + timeout && age.Some? && !Below(age.value, timeout)
  }

  lemma LateIsStuck(start: nat, evs: seq<Event>, timeout: nat, their: Mark, now: Instant)
    requires ClockGrows(evs) && Clock(evs) <= now
    ensures LateFor(timeout, their, AppliedIndex(start, evs), Run(start, evs, timeout, false), now)
            <==> Stuck(start, evs, timeout, their, now)
  {
    if their.index < AppliedIndex(start, evs) {
      NextEntryAge(start, evs, timeout, now, their.index);
    }
  }

  /** What the verdict says about the events themselves, whatever was pruned meanwhile. */
  lemma UnreachableIff(start: nat, evs: seq<Event>, timeout: nat, now: Instant, checkReplication: bool, info: Info)
    requires ClockGrows(evs) && Clock(evs) <= now && forall i :: 0 <= i < |evs| ==> evs[i].now > 0
    requires info.lastApplied.Some? ==> info.lastApplied.value.time <= now
    ensures var kept := Run(start, evs, timeout, true);
            Check(timeout, checkReplication, info, AppliedIndex(start, evs), kept, now).Unreachable?
            <==> (Silent(info, timeout, now) || (checkReplication && info.replicationError)
                  || (info.lastApplied.Some? && Stuck(start, evs, timeout, info.lastApplied.value, now)))
  {
    var full, applied := Run(start, evs, timeout, false), AppliedIndex(start, evs);
    VerdictRefinesFullHistory(start, evs, timeout, now, checkReplication, info);
    CheckMeaning(timeout, checkReplication, info, applied, full, now);
    if info.lastApplied.Some? {
      LateIsStuck(start, evs, timeout, info.lastApplied.value, now);
    }
  }

  // ---- Spacing of heartbeats -----------------------------------------------------------------

  /** The entry after the attempts at `times` all failed. */
  function AfterFailures(info: Info, times: seq<Instant>): Info {
    if times == [] then info
    else Reported(AfterFailures(info, times[..|times| - 1]), times[|times| - 1], false, None, None)
  }

  /** Every attempt but the first was allowed by the tick at which it was made. */
  predicate AllPermitted(info: Info, times: seq<Instant>, isLearner: bool, timeout: nat) {
    && InfoOk(info) && (times != [] && info.lastAttempt.Some? ==> info.lastAttempt.value <= times[0])
    && (forall k :: 1 <= k < |times| && InfoOk(AfterFailures(info, times[..k])) ==>
          ShouldSend(Some(AfterFailures(info, times[..k])), isLearner, timeout, times[k]))
  }

  lemma AfterFailuresStep(info: Info, times: seq<Instant>, k: nat)
    requires 0 < k <= |times|
    ensures AfterFailures(info, times[..k])
            == Reported(AfterFailures(info, times[..k - 1]), times[k - 1], false, None, None)
  {
    assert times[..k][..k - 1] == times[..k - 1];
  }

  lemma {:induction false} AfterFailuresIs(info: Info, times: seq<Instant>, k: nat)
    requires 0 < k <= |times|
    ensures var i := AfterFailures(info, times[..k]);
            && i.lastSuccess == info.lastSuccess && i.failStreak == info.failStreak + k
            && i.lastAttempt == Some(times[k - 1])
  {
    AfterFailuresStep(info, times, k);
    if k > 1 {
      AfterFailuresIs(info, times, k - 1);
    }
  }

  /** Reports keep the entry consistent, so the `expect` on the last attempt never fires. */
  lemma ReportKeepsInfoOk(info: Info, now: Instant, success: bool, applied: Option<nat>, leaderUnknown: Option<bool>)
    requires InfoOk(info) && (info.lastAttempt.Some? ==> info.lastAttempt.value <= now)
    ensures InfoOk(Reported(info, now, success, applied, leaderUnknown))
  {
  }

  /** A permitted attempt on an instance that fails is later than the one before. */
  lemma PermittedIsLater(info: Info, isLearner: bool, timeout: nat, now: Instant)
    requires InfoOk(info) && info.failStreak > 0 && info.lastSuccess.Some?
    requires ShouldSend(Some(info), isLearner, timeout, now)
    ensures info.lastAttempt.Some? && now > info.lastAttempt.value
  {
  }

  /** The entry stays consistent, attempt after attempt. */
  lemma {:induction false} FailuresKeepInfoOk(info: Info, times: seq<Instant>, isLearner: bool, timeout: nat, k: nat)
    requires AllPermitted(info, times, isLearner, timeout) && info.lastSuccess.Some? && k <= |times|
    ensures InfoOk(AfterFailures(info, times[..k]))
  {
    if k == 0 {
      assert times[..0] == [];
    } else {
      FailuresKeepInfoOk(info, times, isLearner, timeout, k - 1);
      var before, now := AfterFailures(info, times[..k - 1]), times[k - 1];
      assert before.lastAttempt.Some? ==> before.lastAttempt.value <= now by {
        if k == 1 {
          assert times[..0] == [];
        } else {
          AfterFailuresIs(info, times, k - 1);
          PermittedIsLater(before, isLearner, timeout, now);
        }
      }
      ReportKeepsInfoOk(before, now, false, None, None);
      AfterFailuresStep(info, times, k);
    }
  }

  /** The gap after each failed attempt exceeds the time since the last success, up to five seconds. */
  lemma NextGap(info: Info, times: seq<Instant>, isLearner: bool, timeout: nat, success: Instant, k: nat)
    requires info.lastSuccess == Some(success) && AllPermitted(info, times, isLearner, timeout) && 1 <= k < |times|
    ensures success <= times[k - 1] && times[k] > times[k - 1] + Min(times[k - 1] - success, MAX_HEARTBEAT_PERIOD)
  {
    FailuresKeepInfoOk(info, times, isLearner, timeout, k);
    AfterFailuresIs(info, times, k);
  }

  lemma Doubling(p: nat, x: nat, d: nat, d': nat)
    requires d + 1 >= p * x && d' > d + d
    ensures d' + 1 >= (2 * p) * x
  {
    assert (2 * p) * x == 2 * (p * x);
  }

  /** While the peer keeps failing, the distance of attempt `k` from the last success at least
      doubles with every attempt until it exceeds five seconds. */
  lemma {:induction false} BackoffDoubles(info: Info, times: seq<Instant>, isLearner: bool, timeout: nat,
                                          success: Instant, k: nat)
    requires info.lastSuccess == Some(success) && AllPermitted(info, times, isLearner, timeout)
    requires k < |times|
    requires forall i :: 0 <= i < k ==> times[i] - success <= MAX_HEARTBEAT_PERIOD
    ensures success <= times[0] && times[k] - success + 1 >= Pow2(k) * (times[0] - success + 1)
  {
    if k > 0 {
      BackoffDoubles(info, times, isLearner, timeout, success, k - 1);
      NextGap(info, times, isLearner, timeout, success, k);
      Doubling(Pow2(k - 1), times[0] - success + 1, times[k - 1] - success, times[k] - success);
    }
  }

  /** From the first attempt more than five seconds after the last success on, attempts are more than
      five seconds apart. */
  lemma {:induction false} BackoffLevelsOff(info: Info, times: seq<Instant>, isLearner: bool, timeout: nat,
                                            success: Instant, i: nat, j: nat)
    requires info.lastSuccess == Some(success) && AllPermitted(info, times, isLearner, timeout)
    requires i <= j < |times| && times[i] >= success + MAX_HEARTBEAT_PERIOD
    ensures times[j] >= times[i] + (j - i) * (MAX_HEARTBEAT_PERIOD + 1)
    decreases j - i
  {
    if i < j {
      BackoffLevelsOff(info, times, isLearner, timeout, success, i, j - 1);
      NextGap(info, times, isLearner, timeout, success, j);
    }
  }
}

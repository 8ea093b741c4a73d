/** The per-integration pipeline: deduplicate against the notification log, send with
    retries, and record what was sent. */
module Dedup {
  import opened Basics
  import opened Gossip
  import opened Nflog

  datatype Reason =
    | DoNotNotify | FirstNotification | NewAlertsInGroup | NewResolvedAlerts
    | AllAlertsResolved | RepeatIntervalElapsed | Unknown

  predicate ShouldNotify(r: Reason) { r != DoNotNotify }

  function Members(hs: seq<Hash>): set<Hash> {
    set i | 0 <= i < |hs| :: hs[i]
  }

  lemma NoMembers(hs: seq<Hash>)
    ensures Members(hs) == {} <==> hs == []
  {
    if hs != [] { assert hs[0] in Members(hs); }
  }

  function NeedsUpdate(
      entry: Option<Entry>, firing: set<Hash>, resolved: set<Hash>, sendResolved: bool, repeat: int, now: Time): Reason
  {
    if entry.None? then
      if |firing| > 0 then FirstNotification else DoNotNotify
    else
      var e := entry.value;
      if !(firing <= Members(e.body.firing)) then
        if |e.body.firing| == 0 then FirstNotification else NewAlertsInGroup
      else if |firing| == 0 then
        if |e.body.firing| > 0 then AllAlertsResolved else DoNotNotify
      else if sendResolved && !(resolved <= Members(e.body.resolved)) then NewResolvedAlerts
      else if e.stamp < now - repeat then RepeatIntervalElapsed
      else DoNotNotify
  }

  /** Nothing in the alert sets is news to a receiver that was last sent `sent`: no new
      firing alert, not the first time that everything is resolved, and no resolution it
      wants to hear about. */
  predicate NoNews(sent: Sent, firing: set<Hash>, resolved: set<Hash>, sendResolved: bool) {
    && firing <= Members(sent.firing)
    && (firing == {} ==> sent.firing == [])
    && (firing != {} && sendResolved ==> resolved <= Members(sent.resolved))
  }

  /** When a notification goes out: with no record, exactly when something fires; with one,
      exactly when there is news, or something still fires and the repeat interval is over. */
  lemma NotifiesExactlyWhen(
      entry: Option<Entry>, firing: set<Hash>, resolved: set<Hash>, sendResolved: bool, repeat: int, now: Time)
    ensures entry.None? ==>
              (ShouldNotify(NeedsUpdate(entry, firing, resolved, sendResolved, repeat, now)) <==> firing != {})
    ensures entry.Some? ==>
              (ShouldNotify(NeedsUpdate(entry, firing, resolved, sendResolved, repeat, now)) <==>
               || !NoNews(entry.value.body, firing, resolved, sendResolved)
               || (firing != {} && now > entry.value.stamp + repeat))
  {
  }

  /** Which reason is given: nothing was on record as firing, or some alert is new, or all are resolved
      for the first time, or a resolution is new, or it is time to repeat; the first that applies. */
  lemma ReasonsExactly(
      entry: Option<Entry>, firing: set<Hash>, resolved: set<Hash>, sendResolved: bool, repeat: int, now: Time)
    ensures var r := NeedsUpdate(entry, firing, resolved, sendResolved, repeat, now);
      var known := if entry.Some? then Members(entry.value.body.firing) else {};
      && (r == FirstNotification <==> firing != {} && known == {})
      && (r == NewAlertsInGroup <==> known != {} && exists h :: h in firing && h !in known)
      && (r == AllAlertsResolved <==> firing == {} && known != {})
      && (r == NewResolvedAlerts <==>
            && entry.Some? && sendResolved && firing != {} && firing <= known
            && exists h :: h in resolved && h !in Members(entry.value.body.resolved))
      && (r == RepeatIntervalElapsed <==>
            && firing != {} && firing <= known && entry.value.stamp + repeat < now
            && (sendResolved ==> resolved <= Members(entry.value.body.resolved)))
      && r != Unknown
  {
    if entry.Some? { NoMembers(entry.value.body.firing); }
  }

  // ---------------------------------------------------------------- the stages

  /** An alert of the batch: its hash and whether it is resolved. */
  datatype Alert = Alert(hash: Hash, resolved: bool)

  function Select(alerts: seq<Alert>, resolved: bool): seq<Hash> {
    if alerts == [] then []
    else
      Select(alerts[..|alerts| - 1], resolved) +
      (if alerts[|alerts| - 1].resolved == resolved then [alerts[|alerts| - 1].hash] else [])
  }

  lemma SelectSnoc(alerts: seq<Alert>, a: Alert)
    ensures forall resolved ::
      Select(alerts + [a], resolved) == Select(alerts, resolved) + if a.resolved == resolved then [a.hash] else []
  {
    assert (alerts + [a])[..|alerts|] == alerts;
  }

  method PartitionByState(alerts: seq<Alert>)
    returns (firing: seq<Hash>, resolved: seq<Hash>, firingSet: set<Hash>, resolvedSet: set<Hash>)
    ensures firing == Select(alerts, false) && resolved == Select(alerts, true)
    ensures firingSet == Members(firing) && resolvedSet == Members(resolved)
    ensures |firing| + |resolved| == |alerts|
  {
    firing, resolved, firingSet, resolvedSet := [], [], {}, {};
    for i := 0 to |alerts|
      invariant firing == Select(alerts[..i], false) && resolved == Select(alerts[..i], true)
      invariant firingSet == Members(firing) && resolvedSet == Members(resolved)
      invariant |firing| + |resolved| == i
    {
      assert alerts[..i + 1][..i] == alerts[..i];
      var h := alerts[i].hash;
      if alerts[i].resolved {
        MembersSnoc(resolved, h);
        resolved, resolvedSet := resolved + [h], resolvedSet + {h};
      } else {
        MembersSnoc(firing, h);
        firing, firingSet := firing + [h], firingSet + {h};
      }
    }
    assert alerts[..|alerts|] == alerts;
  }

  lemma MembersSnoc(hs: seq<Hash>, h: Hash)
    ensures Members(hs + [h]) == Members(hs) + {h}
  {
    forall x ensures x in Members(hs + [h]) <==> x in Members(hs) + {h} {
      if x in Members(hs) {
        var i :| 0 <= i < |hs| && hs[i] == x;
        assert (hs + [h])[i] == x;
      }
      assert (hs + [h])[|hs|] == h;
    }
  }

  /** Is every hash of `subset` among `recorded`? */
  method IsSubset(recorded: seq<Hash>, subset: set<Hash>) returns (r: bool)
    ensures r <==> subset <= Members(recorded)
  {
    var known: set<Hash> := {};
    for i := 0 to |recorded|
      invariant known == Members(recorded[..i])
    {
      MembersSnoc(recorded[..i], recorded[i]);
      assert recorded[..i + 1] == recorded[..i] + [recorded[i]];
      known := known + {recorded[i]};
    }
    assert recorded[..|recorded|] == recorded;
    var todo := subset;
    while todo != {}
      invariant todo <= subset && subset - todo <= known
      decreases todo
    {
      var k: Hash :| k in todo;
      if k !in known { return false; }
      todo := todo - {k};
    }
    return true;
  }

  datatype Attempt = Succeeded | Retryable | Permanent

  /** The first attempt that settles the matter succeeds; running out of attempts is the
      context ending. */
  predicate Delivers(attempts: seq<Attempt>) {
    attempts != [] && (attempts[0].Succeeded? || (attempts[0].Retryable? && Delivers(attempts[1..])))
  }

  /** Some attempt succeeds, and all before it failed in a way that is retried. */
  lemma {:induction false} DeliversExactly(attempts: seq<Attempt>)
    ensures Delivers(attempts) <==>
      exists k :: 0 <= k < |attempts| && attempts[k].Succeeded? && forall j :: 0 <= j < k ==> attempts[j].Retryable?
  {
    if attempts != [] {
      DeliversExactly(attempts[1..]);
      if Delivers(attempts) && !attempts[0].Succeeded? {
        var k :| 0 <= k < |attempts[1..]| && attempts[1..][k].Succeeded?
          && forall j :: 0 <= j < k ==> attempts[1..][j].Retryable?;
        assert attempts[k + 1].Succeeded?;
        forall j | 0 < j < k + 1 ensures attempts[j].Retryable? { assert attempts[1..][j - 1].Retryable?; }
      }
    }
  }

  /** Only resolved alerts for a receiver that does not want them: nothing to send, and
      reported as sent so that the log is updated. */
  predicate NothingToSend(firing: seq<Hash>, sendResolved: bool) { !sendResolved && firing == [] }

  method Retry(firing: seq<Hash>, sendResolved: bool, attempts: seq<Attempt>) returns (ok: bool, tries: nat)
    ensures ok <==> NothingToSend(firing, sendResolved) || Delivers(attempts)
    ensures ok <==>
      || (!sendResolved && firing == [])
      || exists k :: 0 <= k < |attempts| && attempts[k].Succeeded? && forall j :: 0 <= j < k ==> attempts[j].Retryable?
    ensures tries <= |attempts| && (NothingToSend(firing, sendResolved) ==> tries == 0)
    ensures forall i :: 0 <= i < tries - 1 ==> attempts[i].Retryable?
  {
    tries := 0;
    DeliversExactly(attempts);
    if !sendResolved && |firing| == 0 { return true, 0; }
    while tries < |attempts|
      invariant tries <= |attempts|
      invariant Delivers(attempts) <==> Delivers(attempts[tries..])
      invariant forall i :: 0 <= i < tries ==> attempts[i].Retryable?
    {
      var a := attempts[tries];
      assert attempts[tries..][1..] == attempts[tries + 1..];
      tries := tries + 1;
      if a.Succeeded? { return true, tries; }
      if a.Permanent? { return false, tries; }
    }
    return false, tries;
  }

  datatype Stage = ClusterWait | DedupStage | RetryStage | SetNotifies

  const RECEIVER_STAGES := [ClusterWait, DedupStage, RetryStage, SetNotifies]

  /** One integration of a receiver. */
  datatype Integration = Integration(key: Key, sendResolved: bool, repeat: int, retention: int)

  /** What one flush sees of the world: the tick it was triggered at, how the attempts to
      send went, and the clock when the result was logged. */
  datatype Round = Round(alerts: seq<Alert>, tick: Time, attempts: seq<Attempt>, now: Time, now2: Time)

  datatype Result = Skipped | Notified | SendFailed

  function Lookup(st: Log, key: Key): Option<Entry> {
    if key in st then Some(st[key]) else None
  }

  function Decide(st: Log, i: Integration, r: Round): Reason {
    NeedsUpdate(Lookup(st, i.key), Members(Select(r.alerts, false)), Members(Select(r.alerts, true)),
                i.sendResolved, i.repeat, r.tick)
  }

  function FlushResult(st: Log, i: Integration, r: Round): Result {
    if r.alerts == [] || !ShouldNotify(Decide(st, i, r)) then Skipped
    else if NothingToSend(Select(r.alerts, false), i.sendResolved) || Delivers(r.attempts) then Notified
    else SendFailed
  }

  /** Only a notified flush writes to the log; entries are kept for twice the repeat interval. */
  function Flush(st: Log, i: Integration, r: Round): Log {
    if FlushResult(st, i, r).Notified?
    then Write(st, i.retention, i.key, Sent(Select(r.alerts, false), Select(r.alerts, true)),
               2 * i.repeat, r.now, r.now2)
    else st
  }

  /** What a flush that notified logs, with increasing log times: the hashes of the firing and of the
      resolved alerts in their order, for twice the repeat interval or the retention, whichever is
      shorter. Any other flush leaves the log alone. */
  lemma FlushLogsExactly(st: Log, i: Integration, r: Round)
    requires i.key in st ==> st[i.key].stamp < r.now
    requires r.now <= r.now2 <= r.now + Min(i.retention, 2 * i.repeat) && 0 < i.repeat
    ensures !FlushResult(st, i, r).Notified? ==> Flush(st, i, r) == st
    ensures FlushResult(st, i, r).Notified? ==>
      Flush(st, i, r) == st[i.key := Item(i.key, r.now, r.now + Min(i.retention, 2 * i.repeat),
                                          Sent(Select(r.alerts, false), Select(r.alerts, true)))]
  {
  }

  /** The stages in order, each only while there are alerts left and no error. */
  method ExecStages(log: NotificationLog, stages: seq<Stage>, i: Integration, r: Round) returns (res: Result)
    requires stages == RECEIVER_STAGES && log.retention == i.retention
    modifies log
    ensures res == FlushResult(old(log.st), i, r)
    ensures log.st == Flush(old(log.st), i, r)
  {
    var alerts := r.alerts;
    var firing: seq<Hash>, resolved: seq<Hash> := [], [];
    for n := 0 to |stages|
      invariant log.retention == i.retention
      invariant n <= 1 ==> alerts == r.alerts
      invariant n >= 2 ==> firing == Select(r.alerts, false) && resolved == Select(r.alerts, true)
      invariant n >= 2 ==> alerts == if ShouldNotify(Decide(old(log.st), i, r)) then r.alerts else []
      invariant n >= 1 ==> r.alerts != []
      invariant n >= 3 ==> FlushResult(old(log.st), i, r).Notified?
      invariant log.st == if n == 4 then Flush(old(log.st), i, r) else old(log.st)
    {
      if |alerts| == 0 { return Skipped; }
      match stages[n] {
        case ClusterWait =>
        case DedupStage =>
          var fs, rs;
          firing, resolved, fs, rs := PartitionByState(alerts);
          var entry := log.Query(i.key);
          if !ShouldNotify(NeedsUpdate(entry, fs, rs, i.sendResolved, i.repeat, r.tick)) { alerts := []; }
        case RetryStage =>
          var ok, _ := Retry(firing, i.sendResolved, r.attempts);
          if !ok { return SendFailed; }
        case SetNotifies =>
          log.LogSent(i.key, Sent(firing, resolved), 2 * i.repeat, r.now, r.now2);
      }
    }
    return Notified;
  }

  // ---------------------------------------------------------------- the repeat bound

  /** What happens on one peer: flushes of any integration, garbage collection, and entries
      of other peers. */
  datatype Step =
    | DoFlush(i: Integration, r: Round)
    | DoCollect(now: Time)
    | DoMerge(e: Entry, now: Time)

  function Apply(st: Log, step: Step): Log {
    match step
    case DoFlush(i, r) => Flush(st, i, r)
    case DoCollect(now) => Collect(st, now)
    case DoMerge(e, now) => Merge(st, e, now)
  }

  /** A step's reading of the clock stays below the deadline. */
  predicate Before(step: Step, deadline: Time) {
    match step
    case DoFlush(_, r) => r.tick < deadline
    case DoCollect(now) => now < deadline
    case DoMerge(_, now) => now < deadline
  }

  /** Nothing new about `key`: its flushes bring no news compared with `sent`, under the
      given repeat interval, and no other peer reports about it. */
  predicate Uneventful(step: Step, key: Key, sent: Sent, repeat: int) {
    match step
    case DoFlush(i, r) =>
      i.key == key ==>
        && i.repeat == repeat
        && NoNews(sent, Members(Select(r.alerts, false)), Members(Select(r.alerts, true)), i.sendResolved)
    case DoCollect(_) => true
    case DoMerge(e, _) => e.key != key
  }

  function StateBefore(st: Log, steps: seq<Step>, n: nat): Log
    requires n <= |steps|
    decreases steps
  {
    if n == 0 then st else StateBefore(Apply(st, steps[0]), steps[1..], n - 1)
  }

  /** The record of the notification is in place and will not be collected yet. */
  predicate Recorded(st: Log, key: Key, sent: Sent, at: Time, deadline: Time) {
    key in st && st[key].body == sent && st[key].stamp == at && st[key].key == key && deadline <= st[key].expiresAt
  }

  lemma StepKeepsRecord(st: Log, step: Step, key: Key, sent: Sent, at: Time, repeat: int, retention: int)
    requires Recorded(st, key, sent, at, at + Min(repeat, retention))
    requires Uneventful(step, key, sent, repeat) && Before(step, at + Min(repeat, retention))
    requires step.DoFlush? ==> step.i.retention == retention
    ensures Recorded(Apply(st, step), key, sent, at, at + Min(repeat, retention))
    ensures step.DoFlush? && step.i.key == key ==> FlushResult(st, step.i, step.r).Skipped?
  {
  }

  /** A notification that was sent and logged is not repeated early: until the repeat
      interval or the retention has passed, whichever is shorter, no flush without news
      sends, whatever else is flushed, collected or merged in between. */
  lemma {:induction false} NoEarlyRepeat(
      st: Log, key: Key, sent: Sent, at: Time, repeat: int, retention: int, steps: seq<Step>, n: nat)
    requires Recorded(st, key, sent, at, at + Min(repeat, retention))
    requires forall k :: 0 <= k < |steps| ==>
               && Uneventful(steps[k], key, sent, repeat)
               && Before(steps[k], at + Min(repeat, retention))
               && (steps[k].DoFlush? ==> steps[k].i.retention == retention)
    requires n < |steps| && steps[n].DoFlush? && steps[n].i.key == key
    ensures FlushResult(StateBefore(st, steps, n), steps[n].i, steps[n].r).Skipped?
    decreases steps
  {
    StepKeepsRecord(st, steps[0], key, sent, at, repeat, retention);
    if n > 0 {
      NoEarlyRepeat(Apply(st, steps[0]), key, sent, at, repeat, retention, steps[1..], n - 1);
    }
  }

  /** Logging puts the record in place when log times increase and the write is not
      delayed past the entry's own expiry. */
  lemma LoggingRecords(st: Log, i: Integration, sent: Sent, now: Time, now2: Time)
    requires i.key in st ==> st[i.key].stamp < now
    requires now2 <= now + Lifetime(i.retention, 2 * i.repeat)
    ensures Recorded(Write(st, i.retention, i.key, sent, 2 * i.repeat, now, now2),
                     i.key, sent, now, now + Min(i.repeat, i.retention))
  {
  }

  // ---------------------------------------------------------------- subsets of what was sent

  /** A step inside the window: a flush of `key` carries only alerts that were firing, or
      resolved, when `sent` was sent, and no other peer reports about it. */
  predicate Repeats(step: Step, key: Key, sent: Sent, repeat: int, deadline: Time) {
    && Before(step, deadline)
    && match step
       case DoFlush(i, r) =>
         i.key == key ==>
           && i.repeat == repeat
           && Members(Select(r.alerts, false)) <= Members(sent.firing)
           && Members(Select(r.alerts, true)) <= Members(sent.resolved)
       case DoCollect(_) => true
       case DoMerge(e, _) => e.key != key
  }

  predicate IsFlushOf(step: Step, key: Key) { step.DoFlush? && step.i.key == key }

  /** The flush carries no alerts, or something in it still fires, or nothing fired before. */
  predicate IsQuiet(r: Round, sent: Sent) {
    r.alerts == [] || Select(r.alerts, false) != [] || sent.firing == []
  }

  /** While the record stands, a flush for a subset is skipped exactly when it is quiet. */
  lemma SkipsExactlyWhenQuiet(st: Log, step: Step, key: Key, sent: Sent, at: Time, repeat: int, deadline: Time)
    requires Recorded(st, key, sent, at, deadline) && deadline <= at + repeat
    requires Repeats(step, key, sent, repeat, deadline) && IsFlushOf(step, key)
    ensures FlushResult(st, step.i, step.r).Skipped? <==> IsQuiet(step.r, sent)
  {
    var firing := Select(step.r.alerts, false);
    NoMembers(firing);
    NotifiesExactlyWhen(
      Lookup(st, key), Members(firing), Members(Select(step.r.alerts, true)), step.i.sendResolved, repeat, step.r.tick);
  }

  /** The record stands as long as no flush of its key notifies. */
  lemma UnlessNotifiedKeepsRecord(st: Log, step: Step, key: Key, sent: Sent, at: Time, repeat: int, deadline: Time)
    requires Recorded(st, key, sent, at, deadline) && Repeats(step, key, sent, repeat, deadline)
    requires IsFlushOf(step, key) ==> !FlushResult(st, step.i, step.r).Notified?
    ensures Recorded(Apply(st, step), key, sent, at, deadline)
  {
  }

  /** No flush of the key among the first n steps notifies. */
  predicate SilentUntil(st: Log, steps: seq<Step>, key: Key, n: nat)
    requires n <= |steps|
    decreases steps
  {
    n > 0 ==>
      && (IsFlushOf(steps[0], key) ==> !FlushResult(st, steps[0].i, steps[0].r).Notified?)
      && SilentUntil(Apply(st, steps[0]), steps[1..], key, n - 1)
  }

  /** In a run of such steps, up to and including the first flush of the key that notifies:
      a flush of the key is skipped exactly when it is quiet. */
  lemma {:induction false} SkippedIffQuiet(
      st: Log, key: Key, sent: Sent, at: Time, repeat: int, deadline: Time, steps: seq<Step>, n: nat)
    requires Recorded(st, key, sent, at, deadline) && deadline <= at + repeat
    requires forall k :: 0 <= k < |steps| ==> Repeats(steps[k], key, sent, repeat, deadline)
    requires n < |steps| && IsFlushOf(steps[n], key) && SilentUntil(st, steps, key, n)
    ensures FlushResult(StateBefore(st, steps, n), steps[n].i, steps[n].r).Skipped? <==> IsQuiet(steps[n].r, sent)
    decreases steps
  {
    if n == 0 {
      SkipsExactlyWhenQuiet(st, steps[0], key, sent, at, repeat, deadline);
    } else {
      UnlessNotifiedKeepsRecord(st, steps[0], key, sent, at, repeat, deadline);
      SkippedIffQuiet(Apply(st, steps[0]), key, sent, at, repeat, deadline, steps[1..], n - 1);
    }
  }

  predicate AllQuiet(steps: seq<Step>, key: Key, sent: Sent) {
    forall k :: 0 <= k < |steps| && IsFlushOf(steps[k], key) ==> IsQuiet(steps[k].r, sent)
  }

  /** Every flush of the key is skipped. */
  predicate AllSkipped(st: Log, steps: seq<Step>, key: Key)
    decreases steps
  {
    steps != [] ==>
      && (IsFlushOf(steps[0], key) ==> FlushResult(st, steps[0].i, steps[0].r).Skipped?)
      && AllSkipped(Apply(st, steps[0]), steps[1..], key)
  }

  lemma {:induction false} AllSkippedIffQuiet(
      st: Log, key: Key, sent: Sent, at: Time, repeat: int, deadline: Time, steps: seq<Step>)
    requires Recorded(st, key, sent, at, deadline) && deadline <= at + repeat
    requires forall k :: 0 <= k < |steps| ==> Repeats(steps[k], key, sent, repeat, deadline)
    ensures AllSkipped(st, steps, key) <==> AllQuiet(steps, key, sent)
    decreases steps
  {
    if steps != [] {
      if IsFlushOf(steps[0], key) { SkipsExactlyWhenQuiet(st, steps[0], key, sent, at, repeat, deadline); }
      assert AllQuiet(steps, key, sent) <==>
        (IsFlushOf(steps[0], key) ==> IsQuiet(steps[0].r, sent)) && AllQuiet(steps[1..], key, sent) by {
        assert forall k :: 0 < k < |steps| ==> steps[k] == steps[1..][k - 1];
      }
      if IsFlushOf(steps[0], key) ==> IsQuiet(steps[0].r, sent) {
        UnlessNotifiedKeepsRecord(st, steps[0], key, sent, at, repeat, deadline);
        AllSkippedIffQuiet(Apply(st, steps[0]), key, sent, at, repeat, deadline, steps[1..]);
      }
    }
  }

  /** The repeat bound: after a flush that notified, in any run of flushes for subsets of the
      same firing and resolved alerts, of collections and of other entries, all before the
      repeat interval or the retention is over, whichever is shorter, no flush of the key
      goes past deduplication if and only if each of them carries no alerts, or has something
      that still fires, or nothing fired in the first place. */
  lemma RepeatBound(st: Log, i: Integration, r: Round, steps: seq<Step>)
    requires FlushResult(st, i, r).Notified? && (i.key in st ==> st[i.key].stamp < r.now)
    requires r.now <= r.now2 <= r.now + Lifetime(i.retention, 2 * i.repeat)
    requires var sent := Sent(Select(r.alerts, false), Select(r.alerts, true));
             forall k :: 0 <= k < |steps| ==>
               Repeats(steps[k], i.key, sent, i.repeat, r.now + Min(i.repeat, i.retention))
    ensures AllSkipped(Flush(st, i, r), steps, i.key) <==>
      AllQuiet(steps, i.key, Sent(Select(r.alerts, false), Select(r.alerts, true)))
  {
    var sent := Sent(Select(r.alerts, false), Select(r.alerts, true));
    LoggingRecords(st, i, sent, r.now, r.now2);
    AllSkippedIffQuiet(Flush(st, i, r), i.key, sent, r.now, i.repeat, r.now + Min(i.repeat, i.retention), steps);
  }

  const BOTH := [Alert(1, false), Alert(2, true)]
  const REST := [Alert(2, true)]

  lemma SelectedFromThem()
    ensures Select(BOTH, false) == [1] && Select(BOTH, true) == [2]
    ensures Select(REST, false) == [] && Select(REST, true) == [2]
  {
    assert BOTH == [BOTH[0]] + [BOTH[1]] && [BOTH[0]] == [] + [BOTH[0]] && REST == [] + [BOTH[1]];
    SelectSnoc([], BOTH[0]);
    SelectSnoc([], BOTH[1]);
    SelectSnoc([BOTH[0]], BOTH[1]);
  }

  /** A first flush with both alerts, recorded until 110. */
  lemma BothAreSent(i: Integration, r: Round)
    requires i.repeat == i.retention == 100 && r == Round(BOTH, 10, [Succeeded], 10, 10)
    ensures FlushResult(map[], i, r).Notified? && Recorded(Flush(map[], i, r), i.key, Sent([1], [2]), 10, 110)
  {
    SelectedFromThem();
    NoMembers([1]);
    NotifiesExactlyWhen(None, Members([1]), Members([2]), i.sendResolved, i.repeat, 10);
    assert Delivers(r.attempts);
    LoggingRecords(map[], i, Sent([1], [2]), 10, 10);
  }

  /** It fails otherwise: alerts 1 and 2 were reported, 1 firing and 2 resolved; when 1 is
      silenced soon after, the next flush has only 2 and notifies that all is resolved. */
  lemma AllResolvedRepeatsEarly(key: Key) returns (st: Log, i: Integration, first: Round, second: Round)
    ensures FlushResult(st, i, first).Notified?
    ensures Members(Select(second.alerts, false)) <= Members(Select(first.alerts, false))
    ensures Members(Select(second.alerts, true)) <= Members(Select(first.alerts, true))
    ensures first.now <= second.tick < first.now + Min(i.repeat, i.retention)
    ensures FlushResult(Flush(st, i, first), i, second).Notified?
  {
    st, i := map[], Integration(key, true, 100, 100);
    first, second := Round(BOTH, 10, [Succeeded], 10, 10), Round(REST, 20, [Succeeded], 20, 20);
    SelectedFromThem();
    BothAreSent(i, first);
    NoMembers([]);
    SkipsExactlyWhenQuiet(Flush(st, i, first), DoFlush(i, second), key, Sent([1], [2]), 10, 100, 110);
    assert Delivers(second.attempts);
  }

  // ---------------------------------------------------------------- what is really sent

  /** The flush gets as far as trying to send something. */
  predicate Sends(st: Log, i: Integration, r: Round) {
    !FlushResult(st, i, r).Skipped? && !NothingToSend(Select(r.alerts, false), i.sendResolved)
  }

  predicate NoneSends(st: Log, steps: seq<Step>, key: Key)
    decreases steps
  {
    steps != [] ==>
      && (IsFlushOf(steps[0], key) ==> !Sends(st, steps[0].i, steps[0].r))
      && NoneSends(Apply(st, steps[0]), steps[1..], key)
  }

  predicate Fires(step: Step, key: Key) { IsFlushOf(step, key) && Select(step.r.alerts, false) != [] }

  predicate OnlyResolved(step: Step, key: Key) {
    IsFlushOf(step, key) && step.r.alerts != [] && Select(step.r.alerts, false) == []
  }

  predicate AnyFires(steps: seq<Step>, key: Key) { exists k :: 0 <= k < |steps| && Fires(steps[k], key) }

  /** A flush with something firing comes after one with resolved alerts only. */
  predicate FiresAgain(steps: seq<Step>, key: Key) {
    exists j, k :: 0 <= j < k < |steps| && OnlyResolved(steps[j], key) && Fires(steps[k], key)
  }

  lemma FiresAgainStep(steps: seq<Step>, key: Key)
    requires steps != []
    ensures AnyFires(steps, key) <==> Fires(steps[0], key) || AnyFires(steps[1..], key)
    ensures FiresAgain(steps, key) <==>
      (OnlyResolved(steps[0], key) && AnyFires(steps[1..], key)) || FiresAgain(steps[1..], key)
  {
    assert steps == [steps[0]] + steps[1..];
    forall k | 0 <= k < |steps[1..]| ensures steps[k + 1] == steps[1..][k] {
    }
  }

  /** A flush of the key is one of integration i, and what it logs takes effect after `at`. */
  predicate IsTimely(step: Step, i: Integration, at: Time) {
    IsFlushOf(step, i.key) ==>
      step.i == i && at < step.r.now && step.r.now2 <= step.r.now + Lifetime(i.retention, 2 * i.repeat)
  }

  /** Nothing is on record as firing. */
  predicate Cleared(st: Log, key: Key) { key in st ==> st[key].body.firing == [] }

  /** Then only something that fires is sent, and only that ends it. */
  lemma ClearedStep(st: Log, step: Step, i: Integration)
    requires Cleared(st, i.key) && !i.sendResolved && (step.DoMerge? ==> step.e.key != i.key)
    requires IsFlushOf(step, i.key) ==> step.i == i
    ensures IsFlushOf(step, i.key) ==> (Sends(st, i, step.r) <==> Fires(step, i.key))
    ensures !Fires(step, i.key) ==> Cleared(Apply(st, step), i.key)
  {
    if IsFlushOf(step, i.key) { NoMembers(Select(step.r.alerts, false)); }
  }

  lemma {:induction false} ClearedSendsIffFires(st: Log, steps: seq<Step>, i: Integration)
    requires Cleared(st, i.key) && !i.sendResolved
    requires forall k :: 0 <= k < |steps| ==>
               && (steps[k].DoMerge? ==> steps[k].e.key != i.key) && (IsFlushOf(steps[k], i.key) ==> steps[k].i == i)
    ensures NoneSends(st, steps, i.key) <==> !AnyFires(steps, i.key)
    decreases steps
  {
    if steps != [] {
      ClearedStep(st, steps[0], i);
      FiresAgainStep(steps, i.key);
      if !Fires(steps[0], i.key) { ClearedSendsIffFires(Apply(st, steps[0]), steps[1..], i); }
    }
  }

  /** With firing alerts on record, a flush for a subset sends nothing to a receiver that does not
      want resolved alerts, and clears the record exactly when it has resolved alerts only. */
  lemma RecordedStep(st: Log, step: Step, i: Integration, sent: Sent, at: Time, deadline: Time)
    requires Recorded(st, i.key, sent, at, deadline) && deadline <= at + i.repeat
    requires sent.firing != [] && !i.sendResolved
    requires Repeats(step, i.key, sent, i.repeat, deadline) && IsTimely(step, i, at)
    ensures IsFlushOf(step, i.key) ==> !Sends(st, i, step.r)
    ensures if OnlyResolved(step, i.key) then Cleared(Apply(st, step), i.key)
            else Recorded(Apply(st, step), i.key, sent, at, deadline)
  {
    if IsFlushOf(step, i.key) { SkipsExactlyWhenQuiet(st, step, i.key, sent, at, i.repeat, deadline); }
    if !OnlyResolved(step, i.key) { UnlessNotifiedKeepsRecord(st, step, i.key, sent, at, i.repeat, deadline); }
  }

  lemma {:induction false} NoneSendsIff(
      st: Log, steps: seq<Step>, i: Integration, sent: Sent, at: Time, deadline: Time)
    requires Recorded(st, i.key, sent, at, deadline) && deadline <= at + i.repeat
    requires sent.firing != [] && !i.sendResolved
    requires forall k :: 0 <= k < |steps| ==>
      Repeats(steps[k], i.key, sent, i.repeat, deadline) && IsTimely(steps[k], i, at)
    ensures NoneSends(st, steps, i.key) <==> !FiresAgain(steps, i.key)
    decreases steps
  {
    if steps != [] {
      RecordedStep(st, steps[0], i, sent, at, deadline);
      FiresAgainStep(steps, i.key);
      if OnlyResolved(steps[0], i.key) {
        ClearedSendsIffFires(Apply(st, steps[0]), steps[1..], i);
        if FiresAgain(steps[1..], i.key) { AnyOfThem(steps[1..], i.key); }
      } else {
        NoneSendsIff(Apply(st, steps[0]), steps[1..], i, sent, at, deadline);
      }
    }
  }

  lemma AnyOfThem(steps: seq<Step>, key: Key)
    requires FiresAgain(steps, key)
    ensures AnyFires(steps, key)
  {
  }

  /** The bound on what is sent: in a run as above no flush of the group tries to send anything
      if and only if, for a receiver that wants resolved alerts, every flush is quiet, and for one
      that does not, nothing fires after a flush with resolved alerts only. */
  lemma SendBound(st: Log, i: Integration, r: Round, steps: seq<Step>)
    requires FlushResult(st, i, r).Notified? && (i.key in st ==> st[i.key].stamp < r.now)
    requires r.now <= r.now2 <= r.now + Lifetime(i.retention, 2 * i.repeat)
    requires var sent := Sent(Select(r.alerts, false), Select(r.alerts, true));
             forall k :: 0 <= k < |steps| ==>
               && Repeats(steps[k], i.key, sent, i.repeat, r.now + Min(i.repeat, i.retention))
               && IsTimely(steps[k], i, r.now)
    ensures NoneSends(Flush(st, i, r), steps, i.key)
       <==> if i.sendResolved then AllQuiet(steps, i.key, Sent(Select(r.alerts, false), Select(r.alerts, true)))
            else !FiresAgain(steps, i.key)
  {
    var sent, deadline := Sent(Select(r.alerts, false), Select(r.alerts, true)), r.now + Min(i.repeat, i.retention);
    LoggingRecords(st, i, sent, r.now, r.now2);
    if i.sendResolved {
      RepeatBound(st, i, r, steps);
      NoneSendsIffSkipped(Flush(st, i, r), steps, i);
    } else if sent.firing == [] {
      ClearedSendsIffFires(Flush(st, i, r), steps, i);
      NothingFires(steps, i.key, sent, i.repeat, deadline);
    } else {
      NoneSendsIff(Flush(st, i, r), steps, i, sent, r.now, deadline);
    }
  }

  lemma {:induction false} NoneSendsIffSkipped(st: Log, steps: seq<Step>, i: Integration)
    requires i.sendResolved && forall k :: 0 <= k < |steps| && IsFlushOf(steps[k], i.key) ==> steps[k].i == i
    ensures NoneSends(st, steps, i.key) <==> AllSkipped(st, steps, i.key)
    decreases steps
  {
    if steps != [] { NoneSendsIffSkipped(Apply(st, steps[0]), steps[1..], i); }
  }

  lemma NothingFires(steps: seq<Step>, key: Key, sent: Sent, repeat: int, deadline: Time)
    requires sent.firing == [] && forall k :: 0 <= k < |steps| ==> Repeats(steps[k], key, sent, repeat, deadline)
    ensures !AnyFires(steps, key) && !FiresAgain(steps, key)
  {
    forall k | 0 <= k < |steps| && IsFlushOf(steps[k], key) ensures !Fires(steps[k], key) {
      assert Repeats(steps[k], key, sent, repeat, deadline);
      NoMembers(Select(steps[k].r.alerts, false));
    }
  }

  /** For a receiver that does not want resolved alerts: alert 1 is sent, then silenced, and the
      flush with resolved alert 2 clears the record without sending anything; when the silence
      ends soon after, alert 1 is sent again. */
  lemma ClearedRepeatsEarly(key: Key) returns (st: Log, i: Integration, first: Round, second: Round, third: Round)
    ensures !i.sendResolved && Sends(st, i, first) && FlushResult(st, i, first).Notified?
    ensures var st1 := Flush(st, i, first);
      && FlushResult(st1, i, second).Notified? && !Sends(st1, i, second)
      && Sends(Flush(st1, i, second), i, third)
    ensures Select(third.alerts, false) == Select(first.alerts, false)
    ensures first.now < second.now < third.tick < first.now + Min(i.repeat, i.retention)
  {
    st, i := map[], Integration(key, false, 100, 100);
    first, second := Round(BOTH, 10, [Succeeded], 10, 10), Round(REST, 20, [], 20, 20);
    third := Round(BOTH, 30, [Succeeded], 30, 30);
    SelectedFromThem();
    BothAreSent(i, first);
    NoMembers([]);
    var st1 := Flush(st, i, first);
    SkipsExactlyWhenQuiet(st1, DoFlush(i, second), key, Sent([1], [2]), 10, 100, 110);
    RecordedStep(st1, DoFlush(i, second), i, Sent([1], [2]), 10, 110);
    ClearedStep(Flush(st1, i, second), DoFlush(i, third), i);
  }
}

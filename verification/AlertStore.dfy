/** The lock-guarded alert store of an aggregation group or of the inhibitor: a map of
    alerts by fingerprint and a one-way destroyed flag. */
module AlertStore {
  import opened Basics

  type Fingerprint = nat

  /** One version of an alert. */
  datatype Alert = Alert(fp: Fingerprint, updatedAt: Time, endsAt: Time)

  type AlertMap = map<Fingerprint, Alert>

  predicate ResolvedAt(a: Alert, now: Time) { !IsZero(a.endsAt) && a.endsAt <= now }

  /** An alert with an end fires before it and is resolved from then on; without one it fires. */
  lemma ResolvedFromItsEndOn(a: Alert, t: Time)
    ensures a.endsAt == 0 ==> !ResolvedAt(a, t)
    ensures a.endsAt != 0 ==> (ResolvedAt(a, t) <==> t >= a.endsAt)
  {
  }

  /** The stored version of a's fingerprint is a's version, going by the update time. */
  predicate Unmodified(st: AlertMap, a: Alert) { a.fp in st && st[a.fp].updatedAt == a.updatedAt }

  /** What is left after deleting each alert of a list that was not modified since. */
  function Remaining(st: AlertMap, gone: seq<Alert>): AlertMap
    decreases |gone|
  {
    if gone == [] then st
    else Remaining(if Unmodified(st, gone[0]) then st - {gone[0].fp} else st, gone[1..])
  }

  /** An alert survives exactly when no listed alert has its fingerprint and update time;
      nothing is added or changed. */
  lemma {:induction false} RemainingExactly(st: AlertMap, gone: seq<Alert>, fp: Fingerprint)
    requires fp in st
    ensures fp in Remaining(st, gone) <==> forall a :: a in gone && a.fp == fp ==> a.updatedAt != st[fp].updatedAt
    ensures Remaining(st, gone).Keys <= st.Keys
    ensures fp in Remaining(st, gone) ==> Remaining(st, gone)[fp] == st[fp]
    decreases |gone|
  {
    if gone != [] {
      var rest := if Unmodified(st, gone[0]) then st - {gone[0].fp} else st;
      if fp in rest {
        RemainingExactly(rest, gone[1..], fp);
      } else {
        RemainingShrinks(rest, gone[1..]);
        assert gone[0] in gone;
      }
    }
  }

  lemma {:induction false} RemainingShrinks(st: AlertMap, gone: seq<Alert>)
    ensures Remaining(st, gone).Keys <= st.Keys
    decreases |gone|
  {
    if gone != [] {
      RemainingShrinks(if Unmodified(st, gone[0]) then st - {gone[0].fp} else st, gone[1..]);
    }
  }

  datatype SetError = Destroyed

  class Alerts {
    var alerts: AlertMap
    var destroyed: bool

    constructor ()
      ensures alerts == map[] && !destroyed
    {
      alerts := map[];
      destroyed := false;
    }

    /** A destroyed store refuses every alert, and so stays empty; any other store takes it. */
    method Set(a: Alert) returns (err: Option<SetError>)
      modifies this
      ensures destroyed == old(destroyed)
      ensures err == (if destroyed then Some(SetError.Destroyed) else None)
      ensures alerts == if destroyed then old(alerts) else old(alerts)[a.fp := a]
    {
      if destroyed { return Some(SetError.Destroyed); }
      alerts := alerts[a.fp := a];
      return None;
    }

    method DeleteIfNotModified(gone: seq<Alert>, destroyIfEmpty: bool)
      modifies this
      ensures alerts == Remaining(old(alerts), gone)
      ensures destroyed == (old(destroyed) || (alerts == map[] && destroyIfEmpty))
    {
      for i := 0 to |gone|
        invariant destroyed == old(destroyed)
        invariant Remaining(alerts, gone[i..]) == Remaining(old(alerts), gone)
      {
        assert gone[i..][1..] == gone[i + 1..];
        if Unmodified(alerts, gone[i]) { alerts := alerts - {gone[i].fp}; }
      }
      if |alerts| == 0 && destroyIfEmpty { destroyed := true; }
    }

    /** Collection removes exactly the resolved alerts and hands them over, each once. */
    method CollectGarbage(now: Time) returns (deleted: seq<Alert>)
      requires forall fp :: fp in alerts ==> alerts[fp].fp == fp
      modifies this
      ensures destroyed == old(destroyed)
      ensures alerts == old(alerts) - (set fp | fp in old(alerts) && ResolvedAt(old(alerts)[fp], now))
      ensures forall a :: a in deleted <==> a.fp in old(alerts) && old(alerts)[a.fp] == a && ResolvedAt(a, now)
      ensures NoDuplicates(deleted)
    {
      deleted := [];
      var todo := alerts.Keys;
      while todo != {}
        invariant destroyed == old(destroyed) && todo <= alerts.Keys <= old(alerts).Keys
        invariant forall fp :: fp in alerts ==> alerts[fp] == old(alerts)[fp]
        invariant forall fp :: fp in old(alerts) && fp !in todo ==>
                    (fp in alerts <==> !ResolvedAt(old(alerts)[fp], now))
        invariant forall a :: a in deleted <==>
                    a.fp in old(alerts) && a.fp !in alerts && old(alerts)[a.fp] == a && ResolvedAt(a, now)
        invariant NoDuplicates(deleted)
        decreases |todo|
      {
        var fp: Fingerprint :| fp in todo;
        todo := todo - {fp};
        if ResolvedAt(alerts[fp], now) {
          assert alerts[fp] !in deleted;
          deleted := deleted + [alerts[fp]];
          alerts := alerts - {fp};
        }
      }
    }
  }
}

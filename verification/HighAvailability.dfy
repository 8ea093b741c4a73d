/** The high-availability protocol: at one tick every peer waits one timeout per
    lower-ranked peer, consults its notification log, sends, and gossips the log entry. A
    state machine whose guards are the synchrony assumptions. */
module HighAvailability {
  import opened Basics
  import opened Gossip
  import opened Nflog
  import opened Dedup
  import opened Cluster

  /** What is fixed for the round: the members, the integration, the alerts every peer sees
      and the tick at which they see them, whether each peer's send would succeed, the logs
      at the start, and a time by which the round is over. */
  datatype World = World(
    view: set<Name>, timeout: int, i: Integration, alerts: seq<Alert>, tick: Time,
    will: Name -> bool, before: map<Name, Log>, horizon: Time)

  function Firing(w: World): set<Hash> { Members(Select(w.alerts, false)) }

  function Resolved(w: World): set<Hash> { Members(Select(w.alerts, true)) }

  function Notice(w: World): Sent { Sent(Select(w.alerts, false), Select(w.alerts, true)) }

  function Start(w: World, p: Name): Time { w.tick + WaitTime(Rank(w.view, p), w.timeout) }

  function End(w: World, p: Name): Time { w.tick + WaitTime(Rank(w.view, p) + 1, w.timeout) }

  /** The wait as it shows: the first peer by name checks at the tick itself, */
  lemma FirstChecksAtOnce(w: World, p: Name)
    requires p in w.view && forall q :: q in w.view ==> !Less(q, p)
    ensures Start(w, p) == w.tick
  {
    assert (set n | n in w.view && Less(n, p)) == {};
  }

  /** every peer has one timeout for its turn, */
  lemma TurnLastsOneTimeout(w: World, p: Name)
    ensures End(w, p) - Start(w, p) == w.timeout
  {
    WaitsApart(Rank(w.view, p), Rank(w.view, p) + 1, 1, w.timeout);
  }

  /** and the turns follow one another. */
  lemma TimeoutsApart(w: World, p: Name, q: Name)
    requires p in w.view && q in w.view && Less(p, q)
    ensures Start(w, q) - Start(w, p) == (|Between(w.view, p, q)| + 1) * w.timeout
  {
    RanksApart(w.view, p, q);
    WaitsApart(Rank(w.view, p), Rank(w.view, q), |Between(w.view, p, q)| + 1, w.timeout);
  }

  lemma WaitsApart(r: nat, r': nat, k: nat, timeout: int)
    requires r' == r + k
    ensures WaitTime(r', timeout) - WaitTime(r, timeout) == k * timeout
  {
  }

  /** The stages get as far as sending: there are alerts, and the log does not hold them back. */
  predicate Notify(w: World, entry: Option<Entry>) {
    && w.alerts != []
    && ShouldNotify(NeedsUpdate(entry, Firing(w), Resolved(w), w.i.sendResolved, w.i.repeat, w.tick))
  }

  /** No record of the round's key is from the tick or later, and an entry logged during the
      round outlasts it. */
  predicate WellSet(w: World) {
    && 0 < w.timeout && 0 <= w.i.repeat && w.before.Keys == w.view
    && w.horizon <= w.tick + Lifetime(w.i.retention, 2 * w.i.repeat)
    && forall p :: p in w.view ==> IsOlder(w, w.before[p])
  }

  predicate IsOlder(w: World, st: Log) { w.i.key in st ==> st[w.i.key].stamp < w.tick }

  /** `wire` holds the entry each peer gossiped after a successful send, `delivered` the
      pairs of a sender and a peer its entry has reached. Two histories go along: `alone`
      holds the log each peer would have if nobody had sent in this round, `due` whether that
      log called for a notification when the peer checked. */
  datatype State = State(
    clock: Time, logs: map<Name, Log>, decided: map<Name, bool>, done: map<Name, bool>,
    wire: map<Name, Entry>, delivered: set<(Name, Name)>, alone: map<Name, Log>, due: map<Name, bool>)

  function Init(w: World): State { State(w.tick, w.before, map[], map[], map[], {}, w.before, map[]) }

  datatype Event =
    | Check(p: Name, at: Time)
    | Finish(p: Name, at: Time, at2: Time)
    | Arrive(sender: Name, p: Name, at: Time)
    | Collected(p: Name, at: Time)
    | Other(p: Name, e: Entry, at: Time)

  /** What can happen, under these assumptions: the clock does not go back; a peer checks
      once, in its own window; by the time a window is over, the entry of its peer, if it
      sent, has reached everyone who checks later; a send that succeeds is logged within
      the window. Entries of other keys, and older records of this one, may come in at any
      time. */
  predicate Enabled(w: World, s: State, ev: Event) {
    && s.clock <= ev.at < w.horizon
    && match ev
       case Check(p, at) =>
         && p in w.view && p !in s.decided
         && Start(w, p) <= at < End(w, p)
         && forall q :: q in s.wire && End(w, q) <= at ==> (q, p) in s.delivered
       case Finish(p, at, at2) =>
         && p in s.decided && s.decided[p] && p !in s.done
         && at <= at2 < w.horizon && (w.will(p) ==> at2 < End(w, p))
       case Arrive(sender, p, _) => sender in s.wire && p in w.view
       case Collected(p, _) => p in w.view
       case Other(p, e, _) => p in w.view && (e.key == w.i.key ==> e.stamp < w.tick)
  }

  function Entered(w: World, at: Time): Entry {
    NewEntry(w.i.retention, w.i.key, Notice(w), 2 * w.i.repeat, at)
  }

  predicate Ready(w: World, s: State) {
    s.logs.Keys == w.view == s.alone.Keys && s.decided.Keys <= w.view && w.tick <= s.clock
  }

  function Next(w: World, s: State, ev: Event): State
    requires Ready(w, s) && Enabled(w, s, ev)
  {
    match ev
    case Check(p, at) =>
      s.(clock := at, decided := s.decided[p := Notify(w, Lookup(s.logs[p], w.i.key))],
         due := s.due[p := Notify(w, Lookup(s.alone[p], w.i.key))])
    case Finish(p, at, at2) =>
      if w.will(p) then
        s.(clock := at2, done := s.done[p := true],
           logs := s.logs[p := Logged(w, s.logs[p], at, at2)],
           wire := s.wire[p := Entered(w, at)])
      else s.(clock := at2, done := s.done[p := false])
    case Arrive(sender, p, at) =>
      s.(clock := at, logs := s.logs[p := Merge(s.logs[p], s.wire[sender], at)],
         delivered := s.delivered + {(sender, p)})
    case Collected(p, at) =>
      s.(clock := at, logs := s.logs[p := Collect(s.logs[p], at)], alone := s.alone[p := Collect(s.alone[p], at)])
    case Other(p, e, at) =>
      s.(clock := at, logs := s.logs[p := Merge(s.logs[p], e, at)], alone := s.alone[p := Merge(s.alone[p], e, at)])
  }

  /** The peers that sent. */
  function Senders(s: State): set<Name> { s.wire.Keys }

  // ---------------------------------------------------------------- the invariant

  /** An entry of this round. */
  predicate OfRound(w: World, e: Entry) {
    && e.key == w.i.key && e.body == Notice(w) && w.tick <= e.stamp
    && e.expiresAt == e.stamp + Lifetime(w.i.retention, 2 * w.i.repeat)
  }

  predicate HasRound(w: World, st: Log) { w.i.key in st && OfRound(w, st[w.i.key]) }

  ghost predicate LogsOk(w: World, s: State) {
    && s.logs.Keys == w.view == s.alone.Keys
    && (forall p :: p in w.view ==> LogOk(w, s.alone[p], s.logs[p], s.wire != map[]))
    && (forall q :: q in s.wire ==> OfRound(w, s.wire[q]))
    && (forall d :: d in s.delivered ==> d.1 in w.view && HasRound(w, s.logs[d.1]))
  }

  /** Who decided, who is done and who sent. */
  ghost predicate Turns(w: World, clock: Time, decided: map<Name, bool>, done: map<Name, bool>, sent: set<Name>) {
    && w.tick <= clock
    && sent <= done.Keys <= decided.Keys <= w.view
    && (forall p :: p in done ==> decided[p] && (done[p] <==> p in sent) && (done[p] <==> w.will(p)))
    && (forall p :: p in decided ==> Start(w, p) <= clock)
    && (sent == {} || exists p :: p in sent && sent == {p})
  }

  /** A peer decided to notify exactly when it was due and checked before any lower-ranked peer sent. */
  ghost predicate Yields(w: World, decided: map<Name, bool>, due: map<Name, bool>, sent: set<Name>) {
    forall q :: q in decided ==> q in due && (decided[q] <==> due[q] && NoneBelow(w, sent, q))
  }

  predicate NoneBelow(w: World, sent: set<Name>, q: Name) {
    forall p :: p in sent ==> Rank(w.view, p) >= Rank(w.view, q)
  }

  ghost predicate TurnsOk(w: World, s: State) {
    Turns(w, s.clock, s.decided, s.done, Senders(s)) && Yields(w, s.decided, s.due, Senders(s))
  }

  ghost predicate Inv(w: World, s: State) { LogsOk(w, s) && TurnsOk(w, s) }

  lemma WindowsInOrder(w: World, p: Name, q: Name)
    requires 0 < w.timeout && Rank(w.view, p) < Rank(w.view, q)
    ensures End(w, p) <= Start(w, q)
  {
  }

  /** A peer that has seen an entry of this round does not notify. */
  lemma RoundEntryQuiets(w: World, st: Log)
    requires HasRound(w, st) && 0 <= w.i.repeat
    ensures !Notify(w, Lookup(st, w.i.key))
  {
    NotifiesExactlyWhen(Lookup(st, w.i.key), Firing(w), Resolved(w), w.i.sendResolved, w.i.repeat, w.tick);
    assert Select(w.alerts, false) != [] ==> Select(w.alerts, false)[0] in Firing(w);
  }

  lemma InitOk(w: World)
    requires WellSet(w)
    ensures Inv(w, Init(w))
  {
  }

  /** A log as it can be during the round: what it would be alone, or with an entry of the round. */
  predicate LogOk(w: World, alone: Log, st: Log, someoneSent: bool) {
    IsOlder(w, alone) && (Lookup(st, w.i.key) == Lookup(alone, w.i.key) || (HasRound(w, st) && someoneSent))
  }

  lemma MergeRoundOk(w: World, alone: Log, st: Log, sent: bool, e: Entry, at: Time)
    requires WellSet(w) && LogOk(w, alone, st, sent) && OfRound(w, e) && at < w.horizon
    ensures HasRound(w, Merge(st, e, at))
  {
  }

  lemma CollectRoundOk(w: World, alone: Log, st: Log, sent: bool, at: Time)
    requires WellSet(w) && LogOk(w, alone, st, sent) && at < w.horizon
    ensures LogOk(w, Collect(alone, at), Collect(st, at), sent)
    ensures HasRound(w, st) ==> HasRound(w, Collect(st, at))
  {
  }

  lemma OtherRoundOk(w: World, alone: Log, st: Log, sent: bool, e: Entry, at: Time)
    requires LogOk(w, alone, st, sent) && (e.key == w.i.key ==> e.stamp < w.tick)
    ensures LogOk(w, Merge(alone, e, at), Merge(st, e, at), sent)
    ensures HasRound(w, st) ==> HasRound(w, Merge(st, e, at))
  {
  }

  function Logged(w: World, st: Log, at: Time, at2: Time): Log {
    Write(st, w.i.retention, w.i.key, Notice(w), 2 * w.i.repeat, at, at2)
  }

  lemma LoggedRoundOk(w: World, alone: Log, st: Log, sent: bool, at: Time, at2: Time)
    requires WellSet(w) && LogOk(w, alone, st, sent) && w.tick <= at && at2 < w.horizon
    ensures HasRound(w, Logged(w, st, at, at2))
  {
  }

  /** Replacing one log keeps LogsOk if the new log is fine. */
  lemma ReplaceLog(w: World, s: State, s': State, p: Name, alone: Log, st: Log)
    requires LogsOk(w, s) && p in w.view
    requires s'.logs == s.logs[p := st] && s'.alone == s.alone[p := alone] && (s.wire != map[] ==> s'.wire != map[])
    requires forall q :: q in s'.wire ==> OfRound(w, s'.wire[q])
    requires LogOk(w, alone, st, s'.wire != map[]) && (HasRound(w, s.logs[p]) ==> HasRound(w, st))
    requires forall d :: d in s'.delivered ==> d in s.delivered || (d.1 == p && HasRound(w, st))
    ensures LogsOk(w, s')
  {
  }

  lemma SentLogsOk(w: World, s: State, s': State, p: Name, at: Time, at2: Time)
    requires WellSet(w) && LogsOk(w, s) && p in w.view && w.tick <= at && at2 < w.horizon
    requires s'.logs == s.logs[p := Logged(w, s.logs[p], at, at2)] && s'.wire == s.wire[p := Entered(w, at)]
    requires s'.delivered == s.delivered && s'.alone == s.alone
    ensures LogsOk(w, s')
  {
    assert LogOk(w, s.alone[p], s.logs[p], s.wire != map[]);
    LoggedRoundOk(w, s.alone[p], s.logs[p], s.wire != map[], at, at2);
    assert p in s'.wire;
    ReplaceLog(w, s, s', p, s.alone[p], Logged(w, s.logs[p], at, at2));
  }

  lemma SameLogsOk(w: World, s: State, s': State)
    requires LogsOk(w, s) && s'.logs == s.logs && s'.alone == s.alone
    requires s'.wire == s.wire && s'.delivered == s.delivered
    ensures LogsOk(w, s')
  {
  }

  lemma ArrivedLogsOk(w: World, s: State, s': State, p: Name, sender: Name, at: Time)
    requires WellSet(w) && LogsOk(w, s) && p in w.view && sender in s.wire && at < w.horizon
    requires s'.logs == s.logs[p := Merge(s.logs[p], s.wire[sender], at)] && s'.wire == s.wire
    requires s'.delivered == s.delivered + {(sender, p)} && s'.alone == s.alone
    ensures LogsOk(w, s')
  {
    assert LogOk(w, s.alone[p], s.logs[p], s.wire != map[]);
    MergeRoundOk(w, s.alone[p], s.logs[p], s.wire != map[], s.wire[sender], at);
    ReplaceLog(w, s, s', p, s.alone[p], s'.logs[p]);
  }

  lemma CollectedLogsOk(w: World, s: State, s': State, p: Name, at: Time)
    requires WellSet(w) && LogsOk(w, s) && p in w.view && at < w.horizon
    requires s'.logs == s.logs[p := Collect(s.logs[p], at)] && s'.alone == s.alone[p := Collect(s.alone[p], at)]
    requires s'.wire == s.wire && s'.delivered == s.delivered
    ensures LogsOk(w, s')
  {
    assert LogOk(w, s.alone[p], s.logs[p], s.wire != map[]);
    CollectRoundOk(w, s.alone[p], s.logs[p], s.wire != map[], at);
    ReplaceLog(w, s, s', p, Collect(s.alone[p], at), Collect(s.logs[p], at));
  }

  lemma OtherLogsOk(w: World, s: State, s': State, p: Name, e: Entry, at: Time)
    requires LogsOk(w, s) && p in w.view && (e.key == w.i.key ==> e.stamp < w.tick)
    requires s'.logs == s.logs[p := Merge(s.logs[p], e, at)] && s'.alone == s.alone[p := Merge(s.alone[p], e, at)]
    requires s'.wire == s.wire && s'.delivered == s.delivered
    ensures LogsOk(w, s')
  {
    assert LogOk(w, s.alone[p], s.logs[p], s.wire != map[]);
    OtherRoundOk(w, s.alone[p], s.logs[p], s.wire != map[], e, at);
    ReplaceLog(w, s, s', p, Merge(s.alone[p], e, at), Merge(s.logs[p], e, at));
  }

  lemma LogsStayOk(w: World, s: State, ev: Event)
    requires WellSet(w) && LogsOk(w, s) && Ready(w, s) && Enabled(w, s, ev)
    ensures LogsOk(w, Next(w, s, ev))
  {
    var s', p := Next(w, s, ev), ev.p;
    match ev
    case Check(_, _) => SameLogsOk(w, s, s');
    case Finish(_, at, at2) => if w.will(p) { SentLogsOk(w, s, s', p, at, at2); } else { SameLogsOk(w, s, s'); }
    case Arrive(sender, _, at) => ArrivedLogsOk(w, s, s', p, sender, at);
    case Collected(_, at) => CollectedLogsOk(w, s, s', p, at);
    case Other(_, e, at) => OtherLogsOk(w, s, s', p, e, at);
  }

  // ---------------------------------------------------------------- turns

  /** When p checks, everyone who sent ranks below p. */
  lemma SentRankBelow(w: World, s: State, p: Name, at: Time, q: Name)
    requires WellSet(w) && Inv(w, s) && Enabled(w, s, Check(p, at)) && q in s.wire
    ensures Rank(w.view, q) < Rank(w.view, p)
    ensures HasRound(w, s.logs[p])
  {
    RanksDistinct(w.view, p, q);
    if Rank(w.view, p) < Rank(w.view, q) { WindowsInOrder(w, p, q); }
    WindowsInOrder(w, q, p);
    assert (q, p) in s.delivered;
  }

  /** When p's wait is over, everyone who sent ranks below p, and p decides to notify exactly
      when its log would call for it without this round and nobody has sent. */
  lemma CheckDecides(w: World, s: State, p: Name, at: Time)
    requires WellSet(w) && Inv(w, s) && Enabled(w, s, Check(p, at))
    ensures forall q :: q in Senders(s) ==> Rank(w.view, q) < Rank(w.view, p)
    ensures Notify(w, Lookup(s.logs[p], w.i.key)) <==> Notify(w, Lookup(s.alone[p], w.i.key)) && Senders(s) == {}
  {
    assert LogOk(w, s.alone[p], s.logs[p], s.wire != map[]);
    forall q | q in Senders(s) ensures Rank(w.view, q) < Rank(w.view, p) && HasRound(w, s.logs[p]) {
      SentRankBelow(w, s, p, at, q);
    }
    if s.wire != map[] {
      assert Senders(s) != {};
      RoundEntryQuiets(w, s.logs[p]);
    }
  }

  lemma YieldsAfterCheck(w: World, decided: map<Name, bool>, due: map<Name, bool>, sent: set<Name>, p: Name, d: bool)
    requires Yields(w, decided, due, sent) && (forall q :: q in sent ==> Rank(w.view, q) < Rank(w.view, p))
    ensures Yields(w, decided[p := d && sent == {}], due[p := d], sent)
  {
    if q :| q in sent { assert !NoneBelow(w, sent, p); }
  }

  lemma CheckedTurnsOk(w: World, s: State, s': State, p: Name, at: Time, d: bool)
    requires TurnsOk(w, s) && p in w.view && p !in s.decided && s.clock <= at && Start(w, p) <= at
    requires forall q :: q in Senders(s) ==> Rank(w.view, q) < Rank(w.view, p)
    requires s'.decided == s.decided[p := d && Senders(s) == {}] && s'.due == s.due[p := d]
    requires s'.clock == at && s'.done == s.done && Senders(s') == Senders(s)
    ensures TurnsOk(w, s')
  {
    YieldsAfterCheck(w, s.decided, s.due, Senders(s), p, d);
    TurnsAfterCheck(w, s.clock, s.decided, s.done, Senders(s), p, at, d && Senders(s) == {});
  }

  lemma CheckTurnsOk(w: World, s: State, p: Name, at: Time)
    requires WellSet(w) && Inv(w, s) && Enabled(w, s, Check(p, at))
    ensures TurnsOk(w, Next(w, s, Check(p, at)))
  {
    CheckDecides(w, s, p, at);
    CheckedTurnsOk(w, s, Next(w, s, Check(p, at)), p, at, Notify(w, Lookup(s.alone[p], w.i.key)));
  }

  lemma TurnsAfterCheck(
      w: World, clock: Time, decided: map<Name, bool>, done: map<Name, bool>, sent: set<Name>, p: Name, at: Time,
      d: bool)
    requires Turns(w, clock, decided, done, sent) && p in w.view && p !in decided && clock <= at && Start(w, p) <= at
    ensures Turns(w, at, decided[p := d], done, sent)
  {
  }

  /** When p finishes a successful send, everyone else who has checked ranks below p and
      nobody has sent. */
  lemma SendingFirst(w: World, s: State, p: Name, at2: Time)
    requires 0 < w.timeout && TurnsOk(w, s) && p in s.decided && s.decided[p] && p !in s.done
    requires s.clock <= at2 < End(w, p)
    ensures s.wire == map[] && (forall q :: q in s.decided ==> Rank(w.view, q) <= Rank(w.view, p))
  {
    forall q | q in s.decided && q != p ensures Rank(w.view, q) < Rank(w.view, p) {
      RanksDistinct(w.view, p, q);
      if Rank(w.view, p) < Rank(w.view, q) { WindowsInOrder(w, p, q); }
    }
    assert Senders(s) == {};
  }

  lemma SentTurnsOk(w: World, s: State, s': State, p: Name, at2: Time)
    requires 0 < w.timeout && TurnsOk(w, s) && p in s.decided && s.decided[p] && p !in s.done && w.will(p)
    requires s.clock <= at2 < End(w, p)
    requires s'.clock == at2 && s'.decided == s.decided && s'.due == s.due && s'.done == s.done[p := true]
    requires Senders(s') == Senders(s) + {p}
    ensures TurnsOk(w, s')
  {
    SendingFirst(w, s, p, at2);
    assert Senders(s') == {p};
  }

  lemma TurnsAfterFailure(
      w: World, clock: Time, decided: map<Name, bool>, done: map<Name, bool>, sent: set<Name>, p: Name, at2: Time)
    requires Turns(w, clock, decided, done, sent) && p in decided && decided[p] && p !in done && !w.will(p)
    requires clock <= at2
    ensures Turns(w, at2, decided, done[p := false], sent)
  {
  }

  lemma FinishTurnsOk(w: World, s: State, p: Name, at: Time, at2: Time)
    requires 0 < w.timeout && TurnsOk(w, s) && Ready(w, s) && Enabled(w, s, Finish(p, at, at2))
    ensures TurnsOk(w, Next(w, s, Finish(p, at, at2)))
  {
    var s' := Next(w, s, Finish(p, at, at2));
    if w.will(p) {
      SentTurnsOk(w, s, s', p, at2);
    } else {
      TurnsAfterFailure(w, s.clock, s.decided, s.done, Senders(s), p, at2);
    }
  }

  /** Every event keeps the invariant. */
  lemma NextOk(w: World, s: State, ev: Event)
    requires WellSet(w) && Inv(w, s) && Enabled(w, s, ev)
    ensures Inv(w, Next(w, s, ev))
  {
    LogsStayOk(w, s, ev);
    if ev.Check? { CheckTurnsOk(w, s, ev.p, ev.at); }
    if ev.Finish? { FinishTurnsOk(w, s, ev.p, ev.at, ev.at2); }
  }

  // ---------------------------------------------------------------- runs

  /** The states a run passes through. */
  ghost predicate Run(w: World, states: seq<State>, events: seq<Event>) {
    && |states| == |events| + 1 && states[0] == Init(w)
    && forall k :: 0 <= k < |events| ==>
         && Ready(w, states[k]) && Enabled(w, states[k], events[k])
         && states[k + 1] == Next(w, states[k], events[k])
  }

  lemma {:induction false} RunOk(w: World, states: seq<State>, events: seq<Event>, n: nat)
    requires WellSet(w) && Run(w, states, events) && n <= |events|
    ensures Inv(w, states[n])
  {
    if n == 0 {
      InitOk(w);
    } else {
      RunOk(w, states, events, n - 1);
      NextOk(w, states[n - 1], events[n - 1]);
    }
  }

  /** Safety: in every run, at every moment, at most one peer has sent. */
  lemma AtMostOneSender(w: World, states: seq<State>, events: seq<Event>, n: nat, p: Name, q: Name)
    requires WellSet(w) && Run(w, states, events) && n <= |events|
    requires p in Senders(states[n]) && q in Senders(states[n])
    ensures p == q
  {
    RunOk(w, states, events, n);
  }

  /** The round is over: every peer has checked, and those that decided to notify are done. */
  predicate Complete(w: World, s: State) {
    && s.decided.Keys == w.view
    && forall p :: p in s.decided && s.decided[p] ==> p in s.done
  }

  /** When p checked, its log called for a notification as far as this round is not concerned, and
      its send would succeed. */
  predicate IsAble(w: World, s: State, p: Name) { p in s.due && s.due[p] && w.will(p) }

  predicate IsLowestAble(w: World, s: State, p: Name) {
    && p in w.view && IsAble(w, s, p)
    && forall q :: q in w.view && IsAble(w, s, q) ==> Rank(w.view, p) <= Rank(w.view, q)
  }

  lemma CompleteSends(w: World, s: State)
    requires TurnsOk(w, s) && Complete(w, s)
    ensures forall p :: IsLowestAble(w, s, p) ==> Senders(s) == {p}
    ensures (forall p :: p in w.view ==> !IsAble(w, s, p)) ==> Senders(s) == {}
  {
  }

  /** When a round is over, exactly the lowest-ranked peer that was due when it checked and whose
      send succeeds has sent, and nobody if there is no such peer. */
  lemma ExactlyTheLowestSends(w: World, states: seq<State>, events: seq<Event>, n: nat)
    requires WellSet(w) && Run(w, states, events) && n <= |events| && Complete(w, states[n])
    ensures forall p :: IsLowestAble(w, states[n], p) ==> Senders(states[n]) == {p}
    ensures (forall p :: p in w.view ==> !IsAble(w, states[n], p)) ==> Senders(states[n]) == {}
  {
    RunOk(w, states, events, n);
    CompleteSends(w, states[n]);
  }

  // ---------------------------------------------------------------- a round

  /** A round of two peers that know nothing yet of a group with one firing alert. */
  function Pair(key: Key, timeout: int, tick: Time, will: Name -> bool): World {
    World({"a", "b"}, timeout, Integration(key, true, 10 * timeout, 10 * timeout), [Alert(1, false)], tick, will,
          map["a" := map[], "b" := map[]], tick + 10 * timeout)
  }

  lemma PairSetting(w: World, key: Key, timeout: int, tick: Time, will: Name -> bool)
    requires 0 < timeout && w == Pair(key, timeout, tick, will)
    ensures WellSet(w) && Notify(w, None) && "a" in w.view && "b" in w.view
    ensures Start(w, "a") == tick && End(w, "a") == Start(w, "b") == tick + timeout && End(w, "b") == tick + 2 * timeout
  {
    assert w.alerts == [] + [Alert(1, false)];
    SelectSnoc([], Alert(1, false));
    assert 1 in Firing(w) by { assert Select(w.alerts, false)[0] == 1; }
    assert Less("a", "b") && !Less("a", "a") && !Less("b", "a");
    FirstChecksAtOnce(w, "a");
    TimeoutsApart(w, "a", "b");
    assert Between(w.view, "a", "b") == {};
    TurnLastsOneTimeout(w, "a");
    TurnLastsOneTimeout(w, "b");
  }

  lemma Extend(w: World, states: seq<State>, events: seq<Event>, ev: Event)
      returns (states': seq<State>, events': seq<Event>)
    requires Run(w, states, events) && Ready(w, states[|events|]) && Enabled(w, states[|events|], ev)
    ensures Run(w, states', events') && |events'| == |events| + 1
    ensures states'[|events'|] == Next(w, states[|events|], ev)
  {
    states', events' := states + [Next(w, states[|events|], ev)], events + [ev];
    forall k | 0 <= k < |events'|
      ensures Ready(w, states'[k]) && Enabled(w, states'[k], events'[k])
      ensures states'[k + 1] == Next(w, states'[k], events'[k])
    {
      if k < |events| { assert states'[k] == states[k] && states'[k + 1] == states[k + 1] && events'[k] == events[k]; }
    }
  }

  /** The first peer has had its turn. */
  predicate AfterFirst(w: World, s: State) {
    && s.decided == map["a" := true] && s.done == map["a" := w.will("a")] && s.clock == w.tick
    && s.wire == (if w.will("a") then map["a" := Entered(w, w.tick)] else map[]) && s.delivered == {}
    && s.logs.Keys == w.view && "b" in s.logs && s.logs["b"] == map[] && s.alone == w.before
  }

  lemma FirstTurn(w: World, key: Key, timeout: int, tick: Time) returns (states: seq<State>, events: seq<Event>)
    requires 0 < timeout && w == Pair(key, timeout, tick, w.will)
    ensures Run(w, states, events) && AfterFirst(w, states[|events|])
  {
    PairSetting(w, key, timeout, tick, w.will);
    states, events := [Init(w)], [];
    states, events := Extend(w, states, events, Check("a", tick));
    states, events := Extend(w, states, events, Finish("a", tick, tick));
  }

  /** The entry of the first peer reaches the second, which then does not send. */
  lemma SecondYields(w: World, s: State, key: Key, timeout: int) returns (s1: State, s2: State)
    requires 0 < timeout && w == Pair(key, timeout, w.tick, w.will) && AfterFirst(w, s) && w.will("a")
    ensures Ready(w, s) && Enabled(w, s, Arrive("a", "b", w.tick)) && s1 == Next(w, s, Arrive("a", "b", w.tick))
    ensures Ready(w, s1) && Enabled(w, s1, Check("b", w.tick + timeout))
    ensures s2 == Next(w, s1, Check("b", w.tick + timeout))
    ensures Complete(w, s2) && Senders(s2) == {"a"} && s2.clock == w.tick + timeout
  {
    PairSetting(w, key, timeout, w.tick, w.will);
    s1 := Next(w, s, Arrive("a", "b", w.tick));
    assert s1.logs["b"] == map[key := Entered(w, w.tick)];
    RoundEntryQuiets(w, s1.logs["b"]);
    s2 := Next(w, s1, Check("b", w.tick + timeout));
    assert s2.decided == map["a" := true, "b" := false];
  }

  /** If the send of the first failed, the second sends. */
  lemma SecondTurn(w: World, s: State, key: Key, timeout: int) returns (s1: State, s2: State)
    requires 0 < timeout && w == Pair(key, timeout, w.tick, w.will) && AfterFirst(w, s) && !w.will("a") && w.will("b")
    ensures Ready(w, s) && Enabled(w, s, Check("b", w.tick + timeout)) && s1 == Next(w, s, Check("b", w.tick + timeout))
    ensures var done := Finish("b", w.tick + timeout, w.tick + timeout);
      Ready(w, s1) && Enabled(w, s1, done) && s2 == Next(w, s1, done)
    ensures Complete(w, s2) && Senders(s2) == {"b"} && s2.clock == w.tick + timeout
  {
    PairSetting(w, key, timeout, w.tick, w.will);
    s1 := Next(w, s, Check("b", w.tick + timeout));
    assert s1.decided == map["a" := true, "b" := true];
    s2 := Next(w, s1, Finish("b", w.tick + timeout, w.tick + timeout));
  }

  /** A whole round: the first peer checks at the tick and sends, the second checks one timeout later
      and does not. */
  lemma FirstSends(key: Key, timeout: int, tick: Time, will: Name -> bool)
      returns (w: World, states: seq<State>, events: seq<Event>)
    requires 0 < timeout && will("a")
    ensures WellSet(w) && w.view == {"a", "b"} && Run(w, states, events) && Complete(w, states[|events|])
    ensures Senders(states[|events|]) == {"a"} && states[|events|].clock == tick + timeout
  {
    w := Pair(key, timeout, tick, will);
    PairSetting(w, key, timeout, tick, will);
    states, events := FirstTurn(w, key, timeout, tick);
    var _, _ := SecondYields(w, states[|events|], key, timeout);
    states, events := Extend(w, states, events, Arrive("a", "b", tick));
    states, events := Extend(w, states, events, Check("b", tick + timeout));
  }

  /** Another: the send of the first fails, and the second sends. */
  lemma SecondSends(key: Key, timeout: int, tick: Time, will: Name -> bool)
      returns (w: World, states: seq<State>, events: seq<Event>)
    requires 0 < timeout && !will("a") && will("b")
    ensures WellSet(w) && w.view == {"a", "b"} && Run(w, states, events) && Complete(w, states[|events|])
    ensures Senders(states[|events|]) == {"b"} && states[|events|].clock == tick + timeout
  {
    w := Pair(key, timeout, tick, will);
    PairSetting(w, key, timeout, tick, will);
    states, events := FirstTurn(w, key, timeout, tick);
    var _, _ := SecondTurn(w, states[|events|], key, timeout);
    states, events := Extend(w, states, events, Check("b", tick + timeout));
    states, events := Extend(w, states, events, Finish("b", tick + timeout, tick + timeout));
  }
}

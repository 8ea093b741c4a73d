/** The event recorder's webhook batching: events are collected into JSON arrays, limited in
    number and size, and flushed by a timer. */
module WebhookBatching {

  newtype byte = x: int | 0 <= x < 256

  type Event = seq<byte>
  type Batch = seq<Event>

  const OPEN: byte := 91
  const COMMA: byte := 44
  const CLOSE: byte := 93

  /** Events separated by commas. */
  function Joined(events: Batch): seq<byte> {
    if events == [] then []
    else if |events| == 1 then events[0]
    else Joined(events[..|events| - 1]) + [COMMA] + events[|events| - 1]
  }

  function Encoded(events: Batch): seq<byte> { [OPEN] + Joined(events) + [CLOSE] }

  /** What one more event adds to the length. */
  lemma EncodedGrows(events: Batch, e: Event)
    ensures |Encoded(events + [e])| == |Encoded(events)| + |e| + (if events == [] then 0 else 1)
  {
  }

  /** Read from the front: every further event has a comma before it. */
  function Following(events: Batch): seq<byte> {
    if events == [] then [] else [44] + events[0] + Following(events[1..])
  }

  lemma {:induction false} FollowingSnoc(events: Batch, e: Event)
    ensures Following(events + [e]) == Following(events) + [44] + e
  {
    if events == [] {
      assert ([] + [e])[1..] == [];
    } else {
      FollowingSnoc(events[1..], e);
      assert (events + [e])[1..] == events[1..] + [e];
    }
  }

  /** The array is the events in their order, in brackets and separated by commas. */
  lemma {:induction false} EncodedInOrder(events: Batch)
    ensures Encoded(events) == if events == [] then [91, 93] else [91] + events[0] + Following(events[1..]) + [93]
  {
    if events != [] { JoinedInOrder(events); }
  }

  lemma {:induction false} JoinedInOrder(events: Batch)
    requires events != []
    ensures Joined(events) == events[0] + Following(events[1..])
  {
    var n := |events| - 1;
    if n > 0 {
      JoinedInOrder(events[..n]);
      FollowingSnoc(events[..n][1..], events[n]);
      assert events[1..] == events[..n][1..] + [events[n]];
    }
  }

  /** The interval is in nanoseconds. */
  datatype Limits = Limits(maxEvents: int, maxBytes: int, flushInterval: int)

  const DEFAULT_LIMITS := Limits(100, 1_048_576, 100_000_000)

  datatype Input = Arrives(event: Event) | TimerFires

  /** The batches handed over so far, and the one being collected. */
  datatype State = State(sent: seq<Batch>, open: Batch)

  predicate Overflows(lim: Limits, open: Batch, e: Event) {
    open != [] && (|open| >= lim.maxEvents || |Encoded(open + [e])| > lim.maxBytes)
  }

  predicate IsFull(lim: Limits, open: Batch) { |open| >= lim.maxEvents || |Encoded(open)| >= lim.maxBytes }

  function Flushed(s: State): State { if s.open == [] then s else State(s.sent + [s.open], []) }

  /** An event that would overflow the batch starts a new one; a full batch is handed over. */
  function Added(lim: Limits, s: State, e: Event): State {
    var s1 := if Overflows(lim, s.open, e) then Flushed(s) else s;
    var s2 := s1.(open := s1.open + [e]);
    if IsFull(lim, s2.open) then Flushed(s2) else s2
  }

  function After(lim: Limits, inputs: seq<Input>): State {
    if inputs == [] then State([], [])
    else
      var s, last := After(lim, inputs[..|inputs| - 1]), inputs[|inputs| - 1];
      if last.Arrives? then Added(lim, s, last.event) else Flushed(s)
  }

  // ---------------------------------------------------------------- what the batches are

  function Events(inputs: seq<Input>): Batch {
    if inputs == [] then []
    else Events(inputs[..|inputs| - 1]) +
         if inputs[|inputs| - 1].Arrives? then [inputs[|inputs| - 1].event] else []
  }

  function Concat(batches: seq<Batch>): Batch {
    if batches == [] then [] else Concat(batches[..|batches| - 1]) + batches[|batches| - 1]
  }

  /** Everything handed over and collected, in order. */
  function All(s: State): Batch { Concat(s.sent) + s.open }

  lemma FlushedKeepsOrder(s: State)
    ensures All(Flushed(s)) == All(s)
  {
  }

  lemma OpenedKeepsOrder(s: State, e: Event)
    ensures All(s.(open := s.open + [e])) == All(s) + [e]
  {
  }

  lemma AddedKeepsOrder(lim: Limits, s: State, e: Event)
    ensures All(Added(lim, s, e)) == All(s) + [e]
  {
    var s1 := if Overflows(lim, s.open, e) then Flushed(s) else s;
    FlushedKeepsOrder(s);
    OpenedKeepsOrder(s1, e);
    FlushedKeepsOrder(s1.(open := s1.open + [e]));
  }

  /** Whatever comes in and whenever the timer fires, the batches handed over and the open one
      are together the events in order. */
  lemma {:induction false} NothingLostOrReordered(lim: Limits, inputs: seq<Input>)
    ensures Concat(After(lim, inputs).sent) + After(lim, inputs).open == Events(inputs)
  {
    if inputs != [] {
      var before, last := inputs[..|inputs| - 1], inputs[|inputs| - 1];
      NothingLostOrReordered(lim, before);
      assert All(After(lim, before)) == Events(before);
      if last.Arrives? {
        AddedKeepsOrder(lim, After(lim, before), last.event);
      } else {
        FlushedKeepsOrder(After(lim, before));
      }
      assert All(After(lim, inputs)) == Events(inputs);
    }
  }

  predicate BatchOk(lim: Limits, b: Batch) {
    b != [] && |b| <= lim.maxEvents && (|b| >= 2 ==> |Encoded(b)| <= lim.maxBytes)
  }

  /** No batch is empty or has too many events, and only a batch of one event can be too long;
      the open batch is below both limits. */
  predicate WithinLimits(lim: Limits, s: State) {
    && AllOk(lim, s.sent)
    && (s.open != [] ==> BatchOk(lim, s.open) && |s.open| < lim.maxEvents && |Encoded(s.open)| < lim.maxBytes)
  }

  predicate AllOk(lim: Limits, sent: seq<Batch>) { forall i :: 0 <= i < |sent| ==> BatchOk(lim, sent[i]) }

  /** Taking in an event that does not overflow the batch. */
  lemma TakenWithinLimits(lim: Limits, s: State, e: Event)
    requires AllOk(lim, s.sent) && BatchOk(lim, s.open + [e])
    ensures WithinLimits(lim, var s2 := s.(open := s.open + [e]); if IsFull(lim, s2.open) then Flushed(s2) else s2)
  {
  }

  lemma AddedWithinLimits(lim: Limits, s: State, e: Event)
    requires lim.maxEvents > 0 && WithinLimits(lim, s)
    ensures WithinLimits(lim, Added(lim, s, e))
  {
    if Overflows(lim, s.open, e) {
      assert AllOk(lim, Flushed(s).sent) && BatchOk(lim, Flushed(s).open + [e]);
      TakenWithinLimits(lim, Flushed(s), e);
    } else {
      TakenWithinLimits(lim, s, e);
    }
  }

  lemma {:induction false} BatchesWithinLimits(lim: Limits, inputs: seq<Input>)
    requires lim.maxEvents > 0
    ensures WithinLimits(lim, After(lim, inputs))
  {
    if inputs != [] {
      var s, last := After(lim, inputs[..|inputs| - 1]), inputs[|inputs| - 1];
      BatchesWithinLimits(lim, inputs[..|inputs| - 1]);
      if last.Arrives? { AddedWithinLimits(lim, s, last.event); }
    }
  }

  /** The event could have gone into the batch. */
  predicate Fits(lim: Limits, b: Batch, e: Event) { |b| + 1 <= lim.maxEvents && |Encoded(b + [e])| <= lim.maxBytes }

  /** The i-th batch had to be handed over: it has reached a limit, or the event after it does not fit. */
  predicate HadToGo(lim: Limits, s: State, i: nat)
    requires i < |s.sent|
  {
    var after := if i + 1 < |s.sent| then s.sent[i + 1] else s.open;
    || |s.sent[i]| >= lim.maxEvents || |Encoded(s.sent[i])| >= lim.maxBytes
    || (after != [] && !Fits(lim, s.sent[i], after[0]))
  }

  predicate AllHadToGo(lim: Limits, s: State) { forall i :: 0 <= i < |s.sent| ==> HadToGo(lim, s, i) }

  lemma OpenedHadToGo(lim: Limits, s: State, e: Event)
    requires AllHadToGo(lim, s)
    ensures AllHadToGo(lim, s.(open := s.open + [e]))
  {
    var s' := s.(open := s.open + [e]);
    forall i | 0 <= i < |s'.sent| ensures HadToGo(lim, s', i) { assert HadToGo(lim, s, i); }
  }

  lemma FullHadToGo(lim: Limits, s: State)
    requires AllHadToGo(lim, s) && s.open != [] && (|s.open| >= lim.maxEvents || |Encoded(s.open)| >= lim.maxBytes)
    ensures AllHadToGo(lim, State(s.sent + [s.open], []))
  {
    var s' := State(s.sent + [s.open], []);
    forall i | 0 <= i < |s'.sent| ensures HadToGo(lim, s', i) { if i < |s.sent| { assert HadToGo(lim, s, i); } }
  }

  lemma OverflowHadToGo(lim: Limits, s: State, e: Event)
    requires AllHadToGo(lim, s) && s.open != [] && !Fits(lim, s.open, e)
    ensures AllHadToGo(lim, State(s.sent + [s.open], [e]))
  {
    var s' := State(s.sent + [s.open], [e]);
    forall i | 0 <= i < |s'.sent| ensures HadToGo(lim, s', i) { if i < |s.sent| { assert HadToGo(lim, s, i); } }
  }

  /** Unless the timer fires, no batch is handed over before it has to be. */
  lemma {:induction false} BatchesAreFilled(lim: Limits, inputs: seq<Input>)
    requires forall i :: 0 <= i < |inputs| ==> inputs[i].Arrives?
    ensures AllHadToGo(lim, After(lim, inputs))
  {
    if inputs != [] {
      var s, e := After(lim, inputs[..|inputs| - 1]), inputs[|inputs| - 1].event;
      BatchesAreFilled(lim, inputs[..|inputs| - 1]);
      var s2 := if Overflows(lim, s.open, e) then State(s.sent + [s.open], [] + [e]) else s.(open := s.open + [e]);
      if Overflows(lim, s.open, e) {
        assert [] + [e] == [e];
        OverflowHadToGo(lim, s, e);
      } else {
        OpenedHadToGo(lim, s, e);
      }
      if IsFull(lim, s2.open) { FullHadToGo(lim, s2); }
    }
  }

  // ---------------------------------------------------------------- the loop

  /** The configured limits, the defaults where none is given. */
  method NewLimits(maxEvents: int, maxBytes: int, flushInterval: int) returns (lim: Limits)
    ensures lim.maxEvents > 0 && lim.maxBytes > 0 && lim.flushInterval > 0
    ensures lim.maxEvents == if maxEvents > 0 then maxEvents else 100
    ensures lim.maxBytes == if maxBytes > 0 then maxBytes else 1024 * 1024
    ensures lim.flushInterval == if flushInterval > 0 then flushInterval else 100_000_000
  {
    lim := DEFAULT_LIMITS;
    if maxEvents > 0 { lim := lim.(maxEvents := maxEvents); }
    if maxBytes > 0 { lim := lim.(maxBytes := maxBytes); }
    if flushInterval > 0 { lim := lim.(flushInterval := flushInterval); }
  }

  method JsonArray(events: Batch) returns (data: seq<byte>)
    ensures data == Encoded(events)
  {
    data := [OPEN];
    for i := 0 to |events|
      invariant data == [OPEN] + Joined(events[..i])
    {
      if i > 0 { data := data + [COMMA]; }
      data := data + events[i];
      assert events[..i + 1][..i] == events[..i];
    }
    assert events[..|events|] == events;
    data := data + [CLOSE];
  }

  function Payloads(batches: seq<Batch>): seq<seq<byte>> {
    seq(|batches|, i requires 0 <= i < |batches| => Encoded(batches[i]))
  }

  class Batcher {
    const limits: Limits
    var batch: Batch
    var batchSize: nat
    var armed: bool
    var posted: seq<seq<byte>>
    ghost var sent: seq<Batch>

    constructor (limits: Limits)
      ensures this.limits == limits && Valid() && View() == State([], [])
    {
      this.limits := limits;
      batch, batchSize, armed, posted, sent := [], 2, false, [], [];
    }

    /** The tracked size is the length of the array, what was posted are the arrays of the
        batches, and the timer is armed exactly when there is something to flush. */
    ghost predicate Valid()
      reads this
    {
      batchSize == |Encoded(batch)| && (armed <==> batch != []) && posted == Payloads(sent)
    }

    ghost function View(): State
      reads this
    {
      State(sent, batch)
    }

    method Flush()
      requires batchSize == |Encoded(batch)| && posted == Payloads(sent)
      modifies this
      ensures Valid() && View() == Flushed(old(View()))
    {
      armed := false;
      if |batch| == 0 { return; }
      var data := JsonArray(batch);
      posted := posted + [data];
      sent := sent + [batch];
      batch, batchSize := [], 2;
    }

    method Add(e: Event)
      requires Valid()
      modifies this
      ensures Valid() && View() == Added(limits, old(View()), e)
    {
      EncodedGrows(batch, e);
      var additionalSize := |e|;
      if |batch| > 0 { additionalSize := additionalSize + 1; }
      if |batch| > 0 && (|batch| >= limits.maxEvents || batchSize + additionalSize > limits.maxBytes) {
        Flush();
        additionalSize := |e|;
        EncodedGrows(batch, e);
      }
      batch := batch + [e];
      batchSize := batchSize + additionalSize;
      if |batch| == 1 { armed := true; }
      if |batch| >= limits.maxEvents || batchSize >= limits.maxBytes { Flush(); }
    }
  }

  /** Consumes the inputs, a timer that is not armed cannot fire, and flushes at the end: what is
      posted are the arrays of batches that make up exactly the events, in order. */
  method BatchLoop(limits: Limits, inputs: seq<Input>) returns (posted: seq<seq<byte>>)
    ensures posted == Payloads(Flushed(After(limits, inputs)).sent)
    ensures Concat(Flushed(After(limits, inputs)).sent) == Events(inputs)
  {
    var b := new Batcher(limits);
    for i := 0 to |inputs|
      invariant b.Valid() && b.limits == limits && b.View() == After(limits, inputs[..i]) && fresh(b)
    {
      assert inputs[..i + 1][..i] == inputs[..i];
      match inputs[i]
      case Arrives(e) => b.Add(e);
      case TimerFires => if b.armed { b.Flush(); }
    }
    assert inputs[..|inputs|] == inputs;
    NothingLostOrReordered(limits, inputs);
    FlushedKeepsOrder(After(limits, inputs));
    b.Flush();
    assert Concat(b.sent) + [] == Concat(b.sent);
    return b.posted;
  }
}

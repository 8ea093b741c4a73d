/** Starting groups: the sweep at the start time races with the creation of groups. */
module GroupStart {
  import opened Dispatcher

  /** The worker published g and is still to start it or to find the dispatcher waiting. */
  predicate Creates(pc: Pc, g: Gid) { (pc.Counting? || pc.Starting? || pc.Launching?) && pc.own == g }

  predicate CreatorPending(workers: seq<Pc>, g: Gid) { exists i :: 0 <= i < |workers| && Creates(workers[i], g) }

  predicate Taken(s: State, g: Gid)
    requires g < |s.groups|
  {
    s.groups[g].running || CreatorPending(s.workers, g)
  }

  /** Once the sweep has begun, every published group runs, or its creator will start it, or
      the sweep has yet to reach it where it is mapped. */
  predicate EachTaken(s: State, todo: set<Key>) {
    forall g :: 0 <= g < |s.groups| && s.groups[g].published ==>
      Taken(s, g) || (s.groups[g].key in todo && IsMapped(s.slots, s.groups[g].key, g))
  }

  /** h is another group mapped now at the key of g. */
  predicate Succeeds(s: State, todo: set<Key>, g: Gid, h: Gid) {
    && g < |s.groups| && h < |s.groups| && h != g && s.groups[h].key == s.groups[g].key && s.groups[h].key in todo
    && IsMapped(s.slots, s.groups[h].key, h)
  }

  /** The sweep may visit a key with a group that was mapped there earlier; the group mapped
      there now does not depend on it. */
  ghost predicate LaterTaken(s: State, todo: set<Key>, seen: set<Gid>) {
    forall g, h :: g in seen && Succeeds(s, todo, g, h) ==> Taken(s, h)
  }

  ghost predicate StartOk(s: State) {
    s.sweep.Some? ==> EachTaken(s, s.sweep.value.todo) && LaterTaken(s, s.sweep.value.todo, s.sweep.value.seen)
  }

  /** A step after which nobody relies on the sweep who did not before. */
  predicate Undisturbed(s: State, s': State) {
    && |s.groups| <= |s'.groups|
    && (forall g :: 0 <= g < |s.groups| ==>
          && s'.groups[g].key == s.groups[g].key
          && (Taken(s, g) ==> Taken(s', g))
          && (s'.groups[g].published ==> s.groups[g].published || Taken(s', g)))
    && (forall g :: |s.groups| <= g < |s'.groups| ==> !s'.groups[g].published)
  }

  lemma UndisturbedKeeps(s: State, s': State)
    requires Structure(s) && StartOk(s) && Undisturbed(s, s') && s'.slots == s.slots && s'.sweep == s.sweep
    ensures StartOk(s')
  {
  }

  lemma PendingMove(s: State, s': State, w: nat, g: Gid)
    requires w < |s.workers| == |s'.workers| && s'.workers == s.workers[w := s'.workers[w]]
    requires CreatorPending(s.workers, g) && (Creates(s.workers[w], g) ==> Creates(s'.workers[w], g))
    ensures CreatorPending(s'.workers, g)
  {
    var i :| 0 <= i < |s.workers| && Creates(s.workers[i], g);
    assert Creates(s'.workers[i], g);
  }

  lemma WorkerStepStarts(limit: int, s: State, step: Step)
    requires Structure(s) && Enabled(s, step) && StartOk(s)
    requires step.Begin? || step.Insert? || step.Check? || step.InsertFound? || step.Count? || step.LookAtState? ||
      step.Launch?
    ensures StartOk(Next(limit, s, step))
  {
    var s', w := Next(limit, s, step), step.w;
    if s.sweep.Some? {
      WorkerStepUndisturbed(limit, s, step);
      UndisturbedKeeps(s, s');
    }
  }

  lemma WorkerStepUndisturbed(limit: int, s: State, step: Step)
    requires Enabled(s, step) && s.sweep.Some?
    requires step.Begin? || step.Insert? || step.Check? || step.InsertFound? || step.Count? || step.LookAtState? ||
      step.Launch?
    ensures Undisturbed(s, Next(limit, s, step))
  {
    var s', w := Next(limit, s, step), step.w;
    forall g | 0 <= g < |s.groups| && Taken(s, g) ensures Taken(s', g) {
      if !s'.groups[g].running { PendingMove(s, s', w, g); }
    }
  }

  lemma PublishStarts(s: State, w: nat, pc: Pc)
    requires Structure(s) && StartOk(s) && w < |s.workers| && s.workers[w].Trying? && s.workers[w].own < |s.groups|
    requires s.workers[w].k in s.slots ==> s.groups[s.slots[s.workers[w].k]].destroyed
    requires Creates(pc, s.workers[w].own)
    ensures StartOk(Move(Publish(s, s.workers[w].k, s.workers[w].own), w, pc))
  {
    var k, own := s.workers[w].k, s.workers[w].own;
    var s' := Move(Publish(s, k, own), w, pc);
    if s.sweep.Some? {
      var todo, seen := s.sweep.value.todo, s'.sweep.value.seen;
      assert PcOk(s.groups, s.workers[w]);
      assert Creates(s'.workers[w], own);
      forall g | 0 <= g < |s.groups| && Taken(s, g) ensures Taken(s', g) {
        if !s'.groups[g].running { PendingMove(s, s', w, g); }
      }
      forall g | 0 <= g < |s'.groups| && s'.groups[g].published
        ensures Taken(s', g) || (s'.groups[g].key in todo && IsMapped(s'.slots, s'.groups[g].key, g))
      {
        if g != own && !Taken(s, g) { assert GroupOk(s.groups[g]); }
      }
      forall g: Gid, h: Gid | g in seen && Succeeds(s', todo, g, h) ensures Taken(s', h) {
        if h != own { assert Succeeds(s, todo, g, h); }
      }
    }
  }

  lemma AttemptStarts(s: State, w: nat)
    requires Structure(s) && Enabled(s, Try(w)) && StartOk(s)
    ensures StartOk(Attempt(s, w))
  {
    var pc, s' := s.workers[w], Attempt(s, w);
    assert PcOk(s.groups, pc);
    if Creates(s'.workers[w], pc.own) {
      PublishStarts(s, w, s'.workers[w]);
    } else {
      forall g | 0 <= g < |s.groups| && Taken(s, g) ensures Taken(s', g) {
        if !s'.groups[g].running { PendingMove(s, s', w, g); }
      }
      UndisturbedKeeps(s, s');
    }
  }

  lemma BeginSweepStarts(limit: int, s: State)
    requires Structure(s) && Enabled(s, StartSweep)
    ensures StartOk(Next(limit, s, StartSweep))
  {
  }

  lemma VisitStarts(limit: int, s: State, g: Gid)
    requires Structure(s) && Enabled(s, Visit(g)) && StartOk(s)
    ensures StartOk(Next(limit, s, Visit(g)))
  {
    var s' := Next(limit, s, Visit(g));
    var todo := s.sweep.value.todo;
    forall h | 0 <= h < |s.groups| && Taken(s, h) ensures Taken(s', h) {
    }
    forall h | 0 <= h < |s.groups| && s.groups[h].published
      ensures Taken(s', h) || (s'.groups[h].key in s'.sweep.value.todo && IsMapped(s'.slots, s'.groups[h].key, h))
    {
      if h != g && s.groups[h].key == s.groups[g].key && !Taken(s, h) {
        assert Succeeds(s, todo, g, h);
      }
    }
  }

  lemma DeleteStarts(limit: int, s: State)
    requires Structure(s) && Enabled(s, Delete) && StartOk(s)
    ensures StartOk(Next(limit, s, Delete))
  {
    var g, s' := s.maintenance.g, Next(limit, s, Delete);
    assert GroupOk(s.groups[g]);
    forall h | 0 <= h < |s.groups| ensures Taken(s, h) <==> Taken(s', h) {
    }
  }

  lemma OtherStepStarts(limit: int, s: State, step: Step)
    requires Structure(s) && Enabled(s, step) && StartOk(s)
    requires step.StartFlush? || step.EndFlush? || step.LookAtGroup? || step.Discount?
    ensures StartOk(Next(limit, s, step))
  {
    var s' := Next(limit, s, step);
    forall h | 0 <= h < |s.groups| ensures Taken(s, h) <==> Taken(s', h) {
    }
    UndisturbedKeeps(s, s');
  }

  lemma StepStarts(limit: int, s: State, step: Step)
    requires Structure(s) && Enabled(s, step) && StartOk(s)
    ensures StartOk(Next(limit, s, step))
  {
    match step
    case Try(w) => AttemptStarts(s, w);
    case StartSweep => BeginSweepStarts(limit, s);
    case Visit(g) => VisitStarts(limit, s, g);
    case Delete => DeleteStarts(limit, s);
    case StartFlush(_, _, _) => OtherStepStarts(limit, s, step);
    case EndFlush(_, _) => OtherStepStarts(limit, s, step);
    case LookAtGroup(_) => OtherStepStarts(limit, s, step);
    case Discount => OtherStepStarts(limit, s, step);
    case _ => WorkerStepStarts(limit, s, step);
  }

  lemma {:induction false} RunStarts(limit: int, w: nat, states: seq<State>, steps: seq<Step>, n: nat)
    requires Run(limit, w, states, steps) && n <= |steps|
    ensures StartOk(states[n])
  {
    if n > 0 {
      RunStarts(limit, w, states, steps, n - 1);
      RunOk(limit, w, states, steps, n - 1);
      StepStarts(limit, states[n - 1], steps[n - 1]);
    }
  }

  /** Once the sweep has been everywhere it had to go, every group that was ever put into the
      map was started exactly once, or its creator is still about to start it. */
  lemma EveryGroupStarts(limit: int, w: nat, states: seq<State>, steps: seq<Step>, n: nat, g: Gid)
    requires Run(limit, w, states, steps) && n <= |steps|
    requires states[n].sweep.Some? && states[n].sweep.value.todo == {}
    requires g < |states[n].groups| && states[n].groups[g].published
    ensures states[n].groups[g].launches == 1 || CreatorPending(states[n].workers, g)
  {
    RunStarts(limit, w, states, steps, n);
    RunOk(limit, w, states, steps, n);
    assert GroupOk(states[n].groups[g]);
  }
}

/**
 What holds of every run of the kernel module, however long and however interleaved.
 */
module Runs {
  import opened Basics
  import opened Ancestry
  import opened Slots
  import opened Machine
  import opened Effects
  import opened Invariant
  import opened Safety
  import opened Simple
  import opened Refinement

  /** A run of steps as the kernel may hand them over; `Sound` is what `Exec` is defined on. */
  ghost predicate EnabledRun(s: Sys, steps: seq<Step>)
    decreases |steps|, 0
  {
    if steps == [] then true
    else
      var n := |steps| - 1;
      EnabledRun(s, steps[..n]) && Sound(Run(s, steps[..n])) && Enabled(Run(s, steps[..n]), steps[n])
  }

  ghost function Run(s: Sys, steps: seq<Step>): (r: Sys)
    requires EnabledRun(s, steps)
    decreases |steps|, 1
  {
    if steps == [] then s
    else
      var n := |steps| - 1;
      Exec(Run(s, steps[..n]), steps[n])
  }

  ghost function Replies(s: Sys, steps: seq<Step>): (r: seq<Reply>)
    requires EnabledRun(s, steps)
    ensures |r| == |steps|
    decreases |steps|
  {
    if steps == [] then []
    else
      var n := |steps| - 1;
      Replies(s, steps[..n]) + [Observe(Run(s, steps[..n]), steps[n])]
  }

  /** A run without a return that lands on a task waiting with another link. */
  ghost predicate SafeRun(s: Sys, steps: seq<Step>)
    decreases |steps|
  {
    EnabledRun(s, steps) &&
    (steps == [] ||
      var n := |steps| - 1;
      SafeRun(s, steps[..n]) && Safe(Run(s, steps[..n]), steps[n]))
  }

  /** A run in which no fork under way is disturbed. */
  ghost predicate LegalRun(s: Sys, steps: seq<Step>)
    decreases |steps|
  {
    EnabledRun(s, steps) &&
    (steps == [] ||
      var n := |steps| - 1;
      LegalRun(s, steps[..n]) && Undisturbed(Run(s, steps[..n]), steps[n]))
  }

  // ----- heap safety -----

  lemma {:induction false} RunSafe(s: Sys, steps: seq<Step>)
    requires Sound(s) && Backed(s) && SafeRun(s, steps)
    ensures Sound(Run(s, steps)) && Backed(Run(s, steps))
    decreases |steps|
  {
    if steps != [] {
      var n := |steps| - 1;
      RunSafe(s, steps[..n]);
      SafeKept(Run(s, steps[..n]), steps[n]);
    }
  }

  lemma {:induction false} RunKnown(s: Sys, steps: seq<Step>)
    requires Known(s) && EnabledRun(s, steps)
    ensures Known(Run(s, steps))
    decreases |steps|
  {
    if steps != [] {
      var n := |steps| - 1;
      RunKnown(s, steps[..n]);
      StepKnown(Run(s, steps[..n]), steps[n]);
    }
  }

  lemma {:induction false} SafePrefix(s: Sys, steps: seq<Step>, i: nat)
    requires SafeRun(s, steps) && i <= |steps|
    ensures SafeRun(s, steps[..i])
    decreases |steps|
  {
    if i == |steps| {
      assert steps[..i] == steps;
    } else {
      assert steps[..|steps| - 1][..i] == steps[..i];
      SafePrefix(s, steps[..|steps| - 1], i);
    }
  }

  /**
   Heap safety.  Whatever tasks do, inside and outside the windows of forks, the links on the
   heap are exactly the ones some slot holds, and everything a process can still reach - its own
   answer, or the link a fork under way remembers - is among them.
   */
  lemma HeapSafety(s: Sys, steps: seq<Step>)
    requires Initial(s) && SafeRun(s, steps)
    ensures var end := Run(s, steps);
            && Sound(end) && end.texts.Keys == Held(end.slots)
            && (forall u :: u in end.tasks && Resolve(end.slots, end.tasks, u).Some? ==>
                  Resolve(end.slots, end.tasks, u).value in end.texts)
            && (forall c :: c in end.pend && end.pend[c].link.Some? ==> end.pend[c].link.value in end.texts)
  {
    InitialInv(s);
    InvBacked(s);
    RunSafe(s, steps);
    AnswersHeld(Run(s, steps));
  }

  /** No run gets stuck: every step that is enabled and safe extends it. */
  lemma SafeRunGrows(s: Sys, steps: seq<Step>, step: Step)
    requires Sound(s) && Backed(s) && SafeRun(s, steps) && Safe(Run(s, steps), step)
    ensures SafeRun(s, steps + [step]) && Run(s, steps + [step]) == Exec(Run(s, steps), step)
  {
    RunSafe(s, steps);
    assert (steps + [step])[..|steps|] == steps;
  }

  lemma AnswersHeld(s: Sys)
    requires Sound(s) && Backed(s)
    ensures forall u :: u in s.tasks && Resolve(s.slots, s.tasks, u).Some? ==>
              Resolve(s.slots, s.tasks, u).value in s.texts
    ensures forall c :: c in s.pend && s.pend[c].link.Some? ==> s.pend[c].link.value in s.texts
  {
    forall u | u in s.tasks && Resolve(s.slots, s.tasks, u).Some?
      ensures Resolve(s.slots, s.tasks, u).value in s.texts
    {
      ResolveHeld(s.slots, s.tasks, u);
    }
    forall c | c in s.pend && s.pend[c].link.Some? ensures s.pend[c].link.value in s.texts {
      BackedHeld(s, c);
    }
  }

  // ----- the invariant -----

  /** No state of a legal run breaks the invariant, and a legal run is a safe one. */
  lemma {:induction false} RunKept(s: Sys, steps: seq<Step>)
    requires Inv(s) && LegalRun(s, steps)
    ensures Inv(Run(s, steps)) && SafeRun(s, steps)
    decreases |steps|
  {
    if steps != [] {
      var n := |steps| - 1;
      RunKept(s, steps[..n]);
      LegalIsSafe(Run(s, steps[..n]), steps[n]);
      StepKept(Run(s, steps[..n]), steps[n]);
    }
  }

  // ----- refinement -----

  ghost predicate Erasable(steps: seq<Step>) {
    forall i :: 0 <= i < |steps| && steps[i].Setchos? ==> steps[i].count <= |steps[i].buf|
  }

  ghost function EraseAll(steps: seq<Step>): (r: seq<Event>)
    requires Erasable(steps)
  {
    seq(|steps|, i requires 0 <= i < |steps| => Erase(steps[i]))
  }

  ghost predicate PossibleRun(m: Owned, events: seq<Event>)
    decreases |events|, 0
  {
    if events == [] then true
    else
      var n := |events| - 1;
      PossibleRun(m, events[..n]) && Possible(SimpleRun(m, events[..n]), events[n])
  }

  ghost function SimpleRun(m: Owned, events: seq<Event>): (r: Owned)
    requires PossibleRun(m, events)
    decreases |events|, 1
  {
    if events == [] then m
    else
      var n := |events| - 1;
      SimpleExec(SimpleRun(m, events[..n]), events[n])
  }

  ghost function SimpleReplies(m: Owned, events: seq<Event>): (r: seq<Reply>)
    requires PossibleRun(m, events)
    decreases |events|
  {
    if events == [] then []
    else
      var n := |events| - 1;
      SimpleReplies(m, events[..n]) + [SimpleObserve(SimpleRun(m, events[..n]), events[n])]
  }

  lemma {:induction false} RunErasable(s: Sys, steps: seq<Step>)
    requires EnabledRun(s, steps)
    ensures Erasable(steps)
    decreases |steps|
  {
    if steps != [] {
      var n := |steps| - 1;
      RunErasable(s, steps[..n]);
      LastErasable(Run(s, steps[..n]), steps[n]);
      ErasableLast(steps);
    }
  }

  lemma ErasableLast(steps: seq<Step>)
    requires steps != [] && Erasable(steps[..|steps| - 1])
    requires var step := steps[|steps| - 1]; step.Setchos? ==> step.count <= |step.buf|
    ensures Erasable(steps)
  {
    forall i | 0 <= i < |steps| - 1 ensures steps[i] == steps[..|steps| - 1][i] {
    }
  }

  lemma LastErasable(s: Sys, step: Step)
    requires Enabled(s, step)
    ensures step.Setchos? ==> step.count <= |step.buf|
  {
  }

  lemma EraseLast(steps: seq<Step>)
    requires steps != [] && Erasable(steps)
    ensures Erasable(steps[..|steps| - 1])
    ensures EraseAll(steps)[..|steps| - 1] == EraseAll(steps[..|steps| - 1])
    ensures EraseAll(steps)[|steps| - 1] == Erase(steps[|steps| - 1])
  {
    var n := |steps| - 1;
    assert forall i :: 0 <= i < n ==> steps[..n][i] == steps[i];
  }

  lemma {:induction false} RunViews(s: Sys, steps: seq<Step>)
    requires Inv(s) && LegalRun(s, steps) && Erasable(steps)
    ensures PossibleRun(View(s), EraseAll(steps))
    ensures Inv(Run(s, steps)) && View(Run(s, steps)) == SimpleRun(View(s), EraseAll(steps))
    decreases |steps|
  {
    if steps != [] {
      var n := |steps| - 1;
      EraseLast(steps);
      RunViews(s, steps[..n]);
      RefinesLast(View(s), EraseAll(steps), Run(s, steps[..n]), steps[n]);
    }
  }

  lemma {:induction false} RunReplies(s: Sys, steps: seq<Step>)
    requires Inv(s) && LegalRun(s, steps) && Erasable(steps) && PossibleRun(View(s), EraseAll(steps))
    ensures Replies(s, steps) == SimpleReplies(View(s), EraseAll(steps))
    decreases |steps|
  {
    if steps != [] {
      var n := |steps| - 1;
      EraseLast(steps);
      RunViews(s, steps[..n]);
      RunReplies(s, steps[..n]);
      RefinesLast(View(s), EraseAll(steps), Run(s, steps[..n]), steps[n]);
    }
  }

  /**
   Refinement.  Over every legal run, every reply of the kernel module - in particular every
   text read through the link - is the reply of the simple machine.
   */
  lemma RunRefines(s: Sys, steps: seq<Step>)
    requires Inv(s) && LegalRun(s, steps)
    ensures Erasable(steps) && PossibleRun(View(s), EraseAll(steps))
    ensures Inv(Run(s, steps)) && View(Run(s, steps)) == SimpleRun(View(s), EraseAll(steps))
    ensures Replies(s, steps) == SimpleReplies(View(s), EraseAll(steps))
  {
    RunErasable(s, steps);
    RunViews(s, steps);
    RunReplies(s, steps);
  }

  lemma RefinesLast(m: Owned, events: seq<Event>, before: Sys, step: Step)
    requires Inv(before) && Legal(before, step) && events != [] && events[|events| - 1] == Erase(step)
    requires PossibleRun(m, events[..|events| - 1]) && SimpleRun(m, events[..|events| - 1]) == View(before)
    ensures PossibleRun(m, events) && Inv(Exec(before, step)) && SimpleRun(m, events) == View(Exec(before, step))
    ensures SimpleReplies(m, events) == SimpleReplies(m, events[..|events| - 1]) + [Observe(before, step)]
  {
    StepRefines(before, step);
  }

  // ----- reading and exiting are invisible -----

  /** A read changes no task's answer, and afterwards the heap still holds every answer. */
  lemma ReadInvisible(s: Sys, t: TaskId, u: TaskId)
    requires Sound(s) && Acting(s, t) && u in s.tasks
    ensures var s' := Exec(s, Readlink(t));
            && Resolve(s'.slots, s'.tasks, u) == Resolve(s.slots, s.tasks, u)
            && (Resolve(s'.slots, s'.tasks, u).Some? ==> Resolve(s'.slots, s'.tasks, u).value in s'.texts)
  {
    CompressInvisible(s.slots, s.tasks, t, u);
    var slots := Compress(s.slots, s.tasks, t);
    if Resolve(slots, s.tasks, u).Some? {
      CompressHeld(s.slots, s.tasks, t);
      ResolveHeld(slots, s.tasks, u);
    }
  }

  /** The exit hook preserves meaning: no surviving task, near or far, changes its answer. */
  lemma ExitInvisibleToSurvivors(s: Sys, e: TaskId, kids: seq<TaskId>, u: TaskId)
    requires Sound(s) && Enabled(s, Exit(e, kids)) && u in s.tasks && u != e
    ensures var s' := Exec(s, Exit(e, kids));
            && WellFormed(s'.tasks, |s'.slots|) && u in s'.tasks
            && Resolve(s'.slots, s'.tasks, u) == Resolve(s.slots, s.tasks, u)
  {
    AllChildren(s, e, kids);
    ExitResolve(s.slots, s.tasks, e, kids, u);
  }

  lemma ExitResolve(slots: seq<Slot>, f: Forest, e: TaskId, kids: seq<TaskId>, u: TaskId)
    requires WellFormed(f, |slots|) && e in f && e != INIT && u in f && u != e
    requires forall k :: k in kids ==> k in f
    requires forall k :: k in Up(f) && k != INIT && Parent(Up(f), k) == e ==> k in kids
    ensures WellFormed(Without(f, e), |slots|)
    ensures Resolve(CompressAll(slots, f, kids), Without(f, e), u) == Resolve(slots, f, u)
  {
    var after := CompressAll(slots, f, kids);
    WithoutWellFormed(f, |slots|, e);
    WithoutUp(f, e);
    OwnCompressAll(slots, f, kids);
    WithoutOwn(after, f, e);
    ResolveIsFind(slots, f, u);
    ResolveIsFind(after, Without(f, e), u);
    ExitInvisible(Own(slots, f), Up(f), e, kids, u);
  }

  /**
   Without the hook an exit is invisible exactly when there was nothing to lose: the exiting
   task resolves to no link, or every child already has a valid slot.
   */
  lemma BareExitIff(s: Sys, e: TaskId)
    requires Sound(s) && Acting(s, e) && e != INIT
    ensures WellFormed(Without(s.tasks, e), |s.slots|)
    ensures (forall u :: u in s.tasks && u != e ==>
               Resolve(s.slots, Without(s.tasks, e), u) == Resolve(s.slots, s.tasks, u))
       <==> (Resolve(s.slots, s.tasks, e).None? || forall k :: IsChild(s, e, k) ==> Cached(s.slots, s.tasks[k]))
  {
    ExitForest(s, e);
    var f := Without(s.tasks, e);
    if Resolve(s.slots, s.tasks, e).None? || forall k :: IsChild(s, e, k) ==> Cached(s.slots, s.tasks[k]) {
      forall u | u in s.tasks && u != e ensures Resolve(s.slots, f, u) == Resolve(s.slots, s.tasks, u) {
        BareExitKeeps(s, e, u);
      }
    } else {
      var k :| IsChild(s, e, k) && !Cached(s.slots, s.tasks[k]);
      assert Father(s.tasks, k) == e && k != e;
      assert Resolve(s.slots, s.tasks, k) == Resolve(s.slots, s.tasks, e);
      assert f[k].parent == INIT && !Cached(s.slots, f[k]);
      assert Resolve(s.slots, f, k) == Resolve(s.slots, f, INIT) == None;
    }
  }

  lemma {:induction false} BareExitKeeps(s: Sys, e: TaskId, u: TaskId)
    requires WellFormed(s.tasks, |s.slots|) && e in s.tasks && e != INIT && u in s.tasks && u != e
    requires WellFormed(Without(s.tasks, e), |s.slots|)
    requires Resolve(s.slots, s.tasks, e).None? || forall k :: IsChild(s, e, k) ==> Cached(s.slots, s.tasks[k])
    ensures Resolve(s.slots, Without(s.tasks, e), u) == Resolve(s.slots, s.tasks, u)
    decreases u
  {
    if u != INIT && !Cached(s.slots, s.tasks[u]) {
      if Father(s.tasks, u) == e {
        assert IsChild(s, e, u);
        assert Resolve(s.slots, Without(s.tasks, e), INIT) == None;
      } else {
        BareExitKeeps(s, e, Father(s.tasks, u));
      }
    }
  }

  // ----- cleanup -----

  /** cleanup_links removes exactly the stale slots and frees exactly what only they held. */
  lemma SweepExact(slots: seq<Slot>, f: Forest, texts: map<Addr, string>)
    requires WellFormed(f, |slots|) && texts.Keys == Held(slots)
    ensures forall i :: 0 <= i < |slots| && Sweep(slots, f)[i].link.Some? ==>
              exists t :: t in f && f[t].pid == i && f[t].start == Sweep(slots, f)[i].start
    ensures forall i :: 0 <= i < |slots| ==>
              if slots[i].link.Some? && (forall t :: t in f && f[t].pid == i ==> f[t].start != slots[i].start)
              then Sweep(slots, f)[i] == Slot(None, 0) else Sweep(slots, f)[i] == slots[i]
    ensures forall t :: t in f ==> Resolve(Sweep(slots, f), f, t) == Resolve(slots, f, t)
    ensures forall a :: a in texts ==>
              (a in Retain(Sweep(slots, f), texts) <==>
               exists t :: t in f && Cached(slots, f[t]) && slots[f[t].pid].link == Some(a))
  {
    forall t | t in f ensures Resolve(Sweep(slots, f), f, t) == Resolve(slots, f, t) {
      OwnSweep(slots, f);
      ResolveIsFind(slots, f, t);
      ResolveIsFind(Sweep(slots, f), f, t);
    }
    SweepStale(slots, f);
    forall a | a in texts
      ensures a in Held(Sweep(slots, f)) <==> exists t :: t in f && Cached(slots, f[t]) && slots[f[t].pid].link == Some(a)
    {
      SweepHolds(slots, f, a);
    }
  }

  lemma SweepStale(slots: seq<Slot>, f: Forest)
    ensures forall i :: 0 <= i < |slots| && Sweep(slots, f)[i].link.Some? ==>
              exists t :: t in f && f[t].pid == i && f[t].start == Sweep(slots, f)[i].start
  {
    forall i | 0 <= i < |slots| && Sweep(slots, f)[i].link.Some?
      ensures exists t :: t in f && f[t].pid == i && f[t].start == Sweep(slots, f)[i].start
    {
      assert !Stale(slots, f, i);
    }
  }

  lemma SweepHolds(slots: seq<Slot>, f: Forest, a: Addr)
    requires forall t :: t in f ==> f[t].pid < |slots|
    ensures a in Held(Sweep(slots, f)) <==> exists t :: t in f && Cached(slots, f[t]) && slots[f[t].pid].link == Some(a)
  {
    var swept := Sweep(slots, f);
    if a in Held(swept) {
      var i :| 0 <= i < |swept| && swept[i].link == Some(a);
      assert !Stale(slots, f, i);
      var t :| t in f && f[t].pid == i && f[t].start == slots[i].start;
      assert Cached(slots, f[t]);
    }
    if t :| t in f && Cached(slots, f[t]) && slots[f[t].pid].link == Some(a) {
      assert !Stale(slots, f, f[t].pid);
      assert swept[f[t].pid].link == Some(a);
    }
  }
}

/**
 The invariant holds in every state a legal run can reach: the heap is exactly what the
 slots hold, every filled slot was written for a task of the run, and every fork under way
 still finds its link where it left it.
 */
module Invariant {
  import opened Basics
  import opened Ancestry
  import opened Slots
  import opened RefCounts
  import opened LinkTable
  import opened Machine
  import opened Effects
  import opened Windows

  // ----- the heap -----

  lemma SweepHeld(slots: seq<Slot>, f: Forest)
    ensures Held(Sweep(slots, f)) <= Held(slots)
  {
    var swept := Sweep(slots, f);
    forall a | a in Held(swept) ensures a in Held(slots) {
      var i :| 0 <= i < |swept| && swept[i].link == Some(a);
      assert slots[i].link == Some(a);
    }
  }

  /** A window's link is held by the slot of the parent, which is not the child's. */
  lemma WindowHeld(s: Sys, c: TaskId)
    requires WellFormed(s.tasks, |s.slots|) && c in s.pend && WindowOk(Owners(s), Up(s.tasks), c, s.pend[c])
    requires s.pend[c].link.Some?
    ensures var w := s.pend[c];
            w.parent in s.tasks && s.slots[s.tasks[w.parent].pid].link == w.link && w.link.value in Held(s.slots)
  {
    var w := s.pend[c];
    assert w.parent in Owners(s) && Find(Owners(s), Up(s.tasks), w.parent) == Some(Owners(s)[w.parent]);
  }

  lemma SetchosSound(s: Sys, step: Step)
    requires Sound(s) && step.Setchos? && Enabled(s, step)
    ensures Sound(Exec(s, step))
  {
    if Accepted(s, step.buf, step.count) {
      var swept := Sweep(s.slots, s.tasks);
      SweepHeld(s.slots, s.tasks);
      HeldUpdate(swept, s.tasks[step.t].pid, Slot(Some(step.addr), s.tasks[step.t].start));
    }
  }

  lemma ResetchosHeld(slots: seq<Slot>, f: Forest, t: TaskId)
    requires WellFormed(f, |slots|) && t in f
    ensures Held(AfterReset(slots, f, t)) <= Held(slots)
  {
    HeldUpdate(slots, f[t].pid, EMPTY);
    SweepHeld(slots[f[t].pid := EMPTY], f);
  }

  lemma ForkHeld(slots: seq<Slot>, f: Forest, t: TaskId, pid: nat, start: nat)
    requires WellFormed(f, |slots|) && t in f && pid < |slots|
    ensures Held(Compress(slots, f, t)[pid := Slot(Resolve(slots, f, t), start)]) <= Held(slots)
  {
    CompressHeld(slots, f, t);
    HeldUpdate(Compress(slots, f, t), pid, Slot(Resolve(slots, f, t), start));
    if Resolve(slots, f, t).Some? {
      ResolveHeld(slots, f, t);
    }
  }

  lemma ReturnHeld(s: Sys, c: TaskId)
    requires WellFormed(s.tasks, |s.slots|) && c in s.pend && WindowOk(Owners(s), Up(s.tasks), c, s.pend[c])
    requires c in s.tasks
    ensures Held(s.slots[s.tasks[c].pid := Slot(s.pend[c].link, s.tasks[c].start)]) <= Held(s.slots)
  {
    HeldUpdate(s.slots, s.tasks[c].pid, Slot(s.pend[c].link, s.tasks[c].start));
    if s.pend[c].link.Some? {
      WindowHeld(s, c);
    }
  }

  // ----- the (pid, second) pairs -----

  lemma CompressKnown(slots: seq<Slot>, f: Forest, t: TaskId, next: TaskId, born: set<(nat, nat)>)
    requires WellFormed(f, |slots|) && t in f && KnownSlots(slots, born) && KnownTasks(f, next, born)
    ensures KnownSlots(Compress(slots, f, t), born)
  {
    forall i | 0 <= i < |slots| && Compress(slots, f, t)[i].link.Some?
      ensures (i, Compress(slots, f, t)[i].start) in born
    {
      var s := Compress(slots, f, t)[i];
      CompressShape(slots, f, t, i);
      if s != slots[i] {
        var u :| u in f && f[u] == Task(i, s.start, f[u].parent);
        assert PidOf(f, u) == i;
      }
    }
  }

  lemma {:induction false} CompressAllKnown(slots: seq<Slot>, f: Forest, kids: seq<TaskId>, next: TaskId, born: set<(nat, nat)>)
    requires WellFormed(f, |slots|) && (forall k :: k in kids ==> k in f)
    requires KnownSlots(slots, born) && KnownTasks(f, next, born)
    ensures KnownSlots(CompressAll(slots, f, kids), born)
    decreases |kids|
  {
    if kids != [] {
      CompressKnown(slots, f, kids[0], next, born);
      CompressAllKnown(Compress(slots, f, kids[0]), f, kids[1..], next, born);
    }
  }

  lemma SetKnown(slots: seq<Slot>, f: Forest, next: TaskId, born: set<(nat, nat)>, t: TaskId, link: Option<Addr>)
    requires WellFormed(f, |slots|) && t in f && KnownSlots(slots, born) && KnownTasks(f, next, born)
    ensures KnownSlots(slots[f[t].pid := Slot(link, f[t].start)], born)
    ensures KnownSlots(slots[f[t].pid := EMPTY], born)
  {
    assert (PidOf(f, t), f[t].start) in born;
  }

  lemma SweepKnown(slots: seq<Slot>, f: Forest, born: set<(nat, nat)>)
    requires KnownSlots(slots, born)
    ensures KnownSlots(Sweep(slots, f), born)
  {
  }

  lemma BornKnown(s: Sys, t: TaskId, pid: nat, start: nat)
    requires Known(s)
    ensures Known(Born(s, t, pid, start))
  {
    var s' := Born(s, t, pid, start);
    forall u | u in s'.tasks ensures u < s'.next && (PidOf(s'.tasks, u), s'.tasks[u].start) in s'.born {
      assert u != s.next ==> PidOf(s.tasks, u) == PidOf(s'.tasks, u);
    }
  }

  lemma WithoutKnown(f: Forest, next: TaskId, born: set<(nat, nat)>, e: TaskId)
    requires KnownTasks(f, next, born)
    ensures KnownTasks(Without(f, e), next, born)
  {
    var g := Without(f, e);
    forall t | t in g ensures t < next && (PidOf(g, t), g[t].start) in born {
      assert PidOf(f, t) == PidOf(g, t);
    }
  }

  // ----- awaited pids -----

  lemma BornAwaited(s: Sys, t: TaskId, pid: nat, start: nat)
    requires Awaited(s) && forall c :: c in s.pend ==> s.pend[c].pid != pid
    ensures Awaited(Born(s, t, pid, start))
  {
    var s' := Born(s, t, pid, start);
    forall c, u | c in s'.pend && u in s'.tasks && PidOf(s'.tasks, u) == s'.pend[c].pid ensures u == c {
      assert s.pend[c].pid != pid && PidOf(s.tasks, u) == PidOf(s'.tasks, u);
    }
  }

  lemma EnterAwaited(s: Sys, t: TaskId, pid: nat, start: nat, link: Option<Addr>)
    requires Awaited(s) && Bearing(s, t, pid, start) && forall c :: c in s.pend ==> s.pend[c].pid != pid
    ensures Awaited(Born(s, t, pid, start).(pend := s.pend[s.next := Window(t, link, pid)]))
  {
  }

  lemma WithoutAwaited(s: Sys, e: TaskId)
    requires Awaited(s)
    ensures Awaited(s.(tasks := Without(s.tasks, e)))
  {
    var f := Without(s.tasks, e);
    forall c, t | c in s.pend && t in f && PidOf(f, t) == s.pend[c].pid ensures t == c {
      assert PidOf(s.tasks, t) == PidOf(f, t);
    }
  }

  lemma ReturnAwaited(s: Sys, c: TaskId)
    requires Awaited(s)
    ensures Awaited(s.(pend := s.pend - {c}))
  {
  }

  lemma SameAwaited(s: Sys, s': Sys)
    requires Awaited(s) && s'.tasks == s.tasks && s'.pend == s.pend && s'.next == s.next
    ensures Awaited(s')
  {
  }

  // ----- one step at a time -----

  lemma SetchosWindows(s: Sys, step: Step)
    requires Sound(s) && AllWindows(s) && step.Setchos? && Legal(s, step) && Accepted(s, step.buf, step.count)
    ensures AllOk(Owners(Exec(s, step)), Up(s.tasks), s.pend)
  {
    SetchosOwners(s, step);
    forall c | c in s.pend ensures WindowOk(Owners(Exec(s, step)), Up(s.tasks), c, s.pend[c]) {
      assert s.pend[c].parent in Busy(s);
      assert WindowOk(Owners(s), Up(s.tasks), c, s.pend[c]);
      if step.t != INIT {
        KeptBySet(Owners(s), Up(s.tasks), c, s.pend[c], step.t, step.addr);
      }
    }
  }

  lemma SetchosKnown(s: Sys, step: Step)
    requires Sound(s) && Known(s) && step.Setchos? && Enabled(s, step)
    ensures Known(Exec(s, step))
  {
    if Accepted(s, step.buf, step.count) {
      SweepKnown(s.slots, s.tasks, s.born);
      SetKnown(Sweep(s.slots, s.tasks), s.tasks, s.next, s.born, step.t, Some(step.addr));
    }
  }

  lemma SetchosKept(s: Sys, step: Step)
    requires Inv(s) && step.Setchos? && Legal(s, step)
    ensures Inv(Exec(s, step))
  {
    SetchosKnown(s, step);
    if Accepted(s, step.buf, step.count) {
      SetchosSound(s, step);
      SetchosWindows(s, step);
    }
  }

  lemma ResetchosWindows(s: Sys, t: TaskId)
    requires Sound(s) && AllWindows(s) && Acting(s, t)
    ensures AllOk(Owners(Exec(s, Resetchos(t))), Up(s.tasks), s.pend)
  {
    ResetchosOwners(s, t);
    forall c | c in s.pend ensures WindowOk(Owners(Exec(s, Resetchos(t))), Up(s.tasks), c, s.pend[c]) {
      assert s.pend[c].parent in Busy(s);
      KeptByReset(Owners(s), Up(s.tasks), c, s.pend[c], t);
    }
  }

  lemma ResetchosKnown(s: Sys, t: TaskId)
    requires Sound(s) && Known(s) && Acting(s, t)
    ensures Known(Exec(s, Resetchos(t)))
  {
    SetKnown(s.slots, s.tasks, s.next, s.born, t, None);
    SweepKnown(s.slots[s.tasks[t].pid := EMPTY], s.tasks, s.born);
  }

  lemma ResetchosKept(s: Sys, t: TaskId)
    requires Inv(s) && Acting(s, t)
    ensures Inv(Exec(s, Resetchos(t)))
  {
    ResetchosHeld(s.slots, s.tasks, t);
    ResetchosKnown(s, t);
    ResetchosWindows(s, t);
  }

  lemma ReadlinkKept(s: Sys, t: TaskId)
    requires Inv(s) && Acting(s, t)
    ensures Inv(Exec(s, Readlink(t)))
  {
    CompressHeld(s.slots, s.tasks, t);
    CompressKnown(s.slots, s.tasks, t, s.next, s.born);
    ReadlinkOwners(s, t);
    AllKeptByPin(Owners(s), Up(s.tasks), s.pend, t);
  }

  lemma ForkSound(s: Sys, t: TaskId, pid: nat, start: nat)
    requires Sound(s) && Bearing(s, t, pid, start)
    ensures Sound(Exec(s, Fork(t, pid, start)))
  {
    ForkHeld(s.slots, s.tasks, t, pid, start);
    BearingUp(s, t, pid, start);
  }

  lemma ForkKnown(s: Sys, t: TaskId, pid: nat, start: nat)
    requires Sound(s) && Known(s) && Bearing(s, t, pid, start)
    ensures Known(Exec(s, Fork(t, pid, start)))
  {
    CompressKnown(s.slots, s.tasks, t, s.next, s.born);
    BornKnown(s, t, pid, start);
  }

  lemma ForkWindows(s: Sys, t: TaskId, pid: nat, start: nat)
    requires Sound(s) && AllWindows(s) && s.next !in s.pend && Bearing(s, t, pid, start)
    ensures WellFormed(Exec(s, Fork(t, pid, start)).tasks, |s.slots|)
    ensures AllOk(Owners(Exec(s, Fork(t, pid, start))), Up(Exec(s, Fork(t, pid, start)).tasks), s.pend)
  {
    var own, up := Owners(s), Up(s.tasks);
    BearingUp(s, t, pid, start);
    ForkOwners(s, t, pid, start);
    AllKeptByPin(own, up, s.pend, t);
    AllKeptByBirth(Pin(own, up, t), Owners(Exec(s, Fork(t, pid, start))), up, s.pend, s.next, t);
  }

  lemma ForkKept(s: Sys, t: TaskId, pid: nat, start: nat)
    requires Inv(s) && Legal(s, Fork(t, pid, start))
    ensures Inv(Exec(s, Fork(t, pid, start)))
  {
    ForkSound(s, t, pid, start);
    ForkKnown(s, t, pid, start);
    ForkWindows(s, t, pid, start);
    BornAwaited(s, t, pid, start);
  }

  lemma SpawnKept(s: Sys, t: TaskId, pid: nat, start: nat)
    requires Inv(s) && Legal(s, Spawn(t, pid, start))
    ensures Inv(Exec(s, Spawn(t, pid, start)))
  {
    BearingUp(s, t, pid, start);
    BornKnown(s, t, pid, start);
    BornAwaited(s, t, pid, start);
    SpawnOwners(s, t, pid, start);
    AllKeptByBirth(Owners(s), Owners(s), Up(s.tasks), s.pend, s.next, t);
  }

  lemma ForkEnterSound(s: Sys, t: TaskId, pid: nat, start: nat)
    requires Sound(s) && Enabled(s, ForkEnter(t, pid, start))
    ensures Sound(Exec(s, ForkEnter(t, pid, start)))
  {
    CompressHeld(s.slots, s.tasks, t);
    BearingUp(s, t, pid, start);
  }

  lemma NextUnowned(s: Sys, t: TaskId)
    requires Sound(s) && t in s.tasks && s.next !in s.tasks
    ensures s.next !in Owners(s) && s.next !in Pin(Owners(s), Up(s.tasks), t)
  {
    OwnCompress(s.slots, s.tasks, t);
  }

  lemma ForkEnterWindows(s: Sys, t: TaskId, pid: nat, start: nat)
    requires Inv(s) && Enabled(s, ForkEnter(t, pid, start))
    ensures WellFormed(Exec(s, ForkEnter(t, pid, start)).tasks, |s.slots|)
    ensures var s' := Exec(s, ForkEnter(t, pid, start)); AllOk(Owners(s'), Up(s'.tasks), s'.pend)
  {
    BearingUp(s, t, pid, start);
    ForkEnterOwners(s, t, pid, start);
    ResolveIsFind(s.slots, s.tasks, t);
    NextUnowned(s, t);
    AllKeptByEnter(Owners(s), Up(s.tasks), s.pend, s.next, t, pid);
  }

  lemma ForkEnterKept(s: Sys, t: TaskId, pid: nat, start: nat)
    requires Inv(s) && Legal(s, ForkEnter(t, pid, start))
    ensures Inv(Exec(s, ForkEnter(t, pid, start)))
  {
    ForkEnterSound(s, t, pid, start);
    ForkEnterKnown(s, t, pid, start);
    ForkEnterAwaited(s, t, pid, start);
    ForkEnterWindows(s, t, pid, start);
  }

  lemma ForkEnterKnown(s: Sys, t: TaskId, pid: nat, start: nat)
    requires Sound(s) && Known(s) && Enabled(s, ForkEnter(t, pid, start))
    ensures Known(Exec(s, ForkEnter(t, pid, start)))
  {
    CompressKnown(s.slots, s.tasks, t, s.next, s.born);
    BornKnown(s, t, pid, start);
  }

  lemma ForkEnterAwaited(s: Sys, t: TaskId, pid: nat, start: nat)
    requires Sound(s) && Awaited(s) && Legal(s, ForkEnter(t, pid, start))
    ensures Awaited(Exec(s, ForkEnter(t, pid, start)))
  {
    var link := Resolve(s.slots, s.tasks, t);
    EnterAwaited(s, t, pid, start, link);
    SameAwaited(Born(s, t, pid, start).(pend := s.pend[s.next := Window(t, link, pid)]), Exec(s, ForkEnter(t, pid, start)));
  }

  lemma ForkReturnWindows(s: Sys, c: TaskId)
    requires Sound(s) && AllWindows(s) && c in s.pend
    requires FindTask(s.tasks, s.pend[c].pid) == if c in s.tasks then Some(c) else None
    ensures AllOk(Owners(Exec(s, ForkReturn(c))), Up(s.tasks), s.pend - {c})
  {
    ForkReturnOwners(s, c);
    AllKeptByReturn(Owners(s), Up(s.tasks), s.pend, c);
  }

  lemma ForkReturnSound(s: Sys, c: TaskId)
    requires Sound(s) && AllWindows(s) && c in s.pend
    requires FindTask(s.tasks, s.pend[c].pid) == if c in s.tasks then Some(c) else None
    ensures Sound(Exec(s, ForkReturn(c)))
  {
    if c in s.tasks {
      assert WindowOk(Owners(s), Up(s.tasks), c, s.pend[c]);
      ReturnHeld(s, c);
    }
  }

  lemma ForkReturnKnown(s: Sys, c: TaskId)
    requires Sound(s) && Known(s) && c in s.pend
    ensures Known(Exec(s, ForkReturn(c)))
  {
    match FindTask(s.tasks, s.pend[c].pid)
    case None =>
    case Some(d) => SetKnown(s.slots, s.tasks, s.next, s.born, d, s.pend[c].link);
  }

  lemma ForkReturnKept(s: Sys, c: TaskId)
    requires Inv(s) && c in s.pend
    ensures Inv(Exec(s, ForkReturn(c)))
  {
    AwaitedTask(s, c);
    ForkReturnWindows(s, c);
    ForkReturnSound(s, c);
    ForkReturnKnown(s, c);
    ReturnAwaited(s, c);
    SameAwaited(s.(pend := s.pend - {c}), Exec(s, ForkReturn(c)));
  }

  lemma ExitSound(s: Sys, e: TaskId, kids: seq<TaskId>)
    requires Sound(s) && Enabled(s, Exit(e, kids))
    ensures Sound(Exec(s, Exit(e, kids)))
  {
    CompressAllHeld(s.slots, s.tasks, kids);
    ExitForest(s, e);
  }

  lemma NotAwaitedParent(s: Sys, e: TaskId)
    requires e !in Busy(s)
    ensures forall c :: c in s.pend ==> s.pend[c].parent != e
  {
    forall c | c in s.pend ensures s.pend[c].parent != e {
      assert s.pend[c].parent in Busy(s);
    }
  }

  lemma AllChildren(s: Sys, e: TaskId, kids: seq<TaskId>)
    requires Rooted(Up(s.tasks)) && forall k :: IsChild(s, e, k) ==> k in kids
    ensures forall k :: k in Up(s.tasks) && k != INIT && Parent(Up(s.tasks), k) == e ==> k in kids
  {
    forall k | k in Up(s.tasks) && k != INIT && Parent(Up(s.tasks), k) == e ensures k in kids {
      assert IsChild(s, e, k);
    }
  }

  lemma ExitWindows(s: Sys, e: TaskId, kids: seq<TaskId>)
    requires Sound(s) && AllWindows(s) && Enabled(s, Exit(e, kids))
    ensures WellFormed(Without(s.tasks, e), |s.slots|)
    ensures AllOk(Owners(Exec(s, Exit(e, kids))), Up(Without(s.tasks, e)), s.pend)
  {
    ExitForest(s, e);
    ExitOwners(s, e, kids);
    AllChildren(s, e, kids);
    NotAwaitedParent(s, e);
    AllKeptByExit(Owners(s), Up(s.tasks), s.pend, e, kids);
  }

  lemma ExitKnown(s: Sys, e: TaskId, kids: seq<TaskId>)
    requires Sound(s) && Known(s) && Enabled(s, Exit(e, kids))
    ensures Known(Exec(s, Exit(e, kids)))
  {
    CompressAllKnown(s.slots, s.tasks, kids, s.next, s.born);
    WithoutKnown(s.tasks, s.next, s.born, e);
  }

  lemma ExitAwaited(s: Sys, e: TaskId, kids: seq<TaskId>)
    requires Sound(s) && Awaited(s) && Enabled(s, Exit(e, kids))
    ensures Awaited(Exec(s, Exit(e, kids)))
  {
    WithoutAwaited(s, e);
    SameAwaited(s.(tasks := Without(s.tasks, e)), Exec(s, Exit(e, kids)));
  }

  lemma ExitKept(s: Sys, e: TaskId, kids: seq<TaskId>)
    requires Inv(s) && Enabled(s, Exit(e, kids))
    ensures Inv(Exec(s, Exit(e, kids)))
  {
    ExitSound(s, e, kids);
    ExitKnown(s, e, kids);
    ExitAwaited(s, e, kids);
    ExitWindows(s, e, kids);
  }

  lemma VanishWindows(s: Sys, e: TaskId)
    requires Sound(s) && AllWindows(s) && Enabled(s, Vanish(e))
    ensures WellFormed(Without(s.tasks, e), |s.slots|)
    ensures AllOk(Owners(Exec(s, Vanish(e))), Up(Without(s.tasks, e)), s.pend)
  {
    ExitForest(s, e);
    VanishOwners(s, e);
    NotAwaitedParent(s, e);
    AllKeptByVanish(Owners(s), Up(s.tasks), s.pend, e);
  }

  lemma VanishKept(s: Sys, e: TaskId)
    requires Inv(s) && Enabled(s, Vanish(e))
    ensures Inv(Exec(s, Vanish(e)))
  {
    WithoutKnown(s.tasks, s.next, s.born, e);
    WithoutAwaited(s, e);
    VanishWindows(s, e);
  }

  /** Every enabled step, legal or not: tasks and filled slots have a (pid, second) of the run. */
  lemma StepKnown(s: Sys, step: Step)
    requires Sound(s) && Known(s) && Enabled(s, step)
    ensures Known(Exec(s, step))
  {
    match step
    case Setchos(_, _, _, _) => SetchosKnown(s, step);
    case Resetchos(t) => ResetchosKnown(s, t);
    case Readlink(t) => CompressKnown(s.slots, s.tasks, t, s.next, s.born);
    case Fork(t, pid, start) => ForkKnown(s, t, pid, start);
    case Spawn(t, pid, start) => BornKnown(s, t, pid, start);
    case ForkEnter(t, pid, start) => ForkEnterKnown(s, t, pid, start);
    case ForkReturn(c) => ForkReturnKnown(s, c);
    case Exit(e, kids) => ExitKnown(s, e, kids);
    case Vanish(e) => WithoutKnown(s.tasks, s.next, s.born, e);
    case WriteValid(_, _, _) =>
  }

  /** Every legal step keeps the invariant. */
  lemma StepKept(s: Sys, step: Step)
    requires Inv(s) && Legal(s, step)
    ensures Inv(Exec(s, step))
  {
    match step
    case Setchos(_, _, _, _) => SetchosKept(s, step);
    case Resetchos(t) => ResetchosKept(s, t);
    case Readlink(t) => ReadlinkKept(s, t);
    case Fork(t, pid, start) => ForkKept(s, t, pid, start);
    case Spawn(t, pid, start) => SpawnKept(s, t, pid, start);
    case ForkEnter(t, pid, start) => ForkEnterKept(s, t, pid, start);
    case ForkReturn(c) => ForkReturnKept(s, c);
    case Exit(e, kids) => ExitKept(s, e, kids);
    case Vanish(e) => VanishKept(s, e);
    case WriteValid(_, _, _) =>
  }
}

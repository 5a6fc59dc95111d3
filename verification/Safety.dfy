/**
 What heap safety rests on.  Tasks may choose, reset, fork and exit inside the window of a fork
 as they like: as long as every parent that waits for a return still has its link in its own
 slot (`Backed`), that return stores a link that is on the heap.  Every enabled step keeps
 this, except a return whose `set_link` lands on a task that is itself waiting with another link.
 */
module Safety {
  import opened Basics
  import opened Ancestry
  import opened Slots
  import opened RefCounts
  import opened LinkTable
  import opened Machine
  import opened Effects
  import opened Invariant

  // ----- the heap -----

  /** A window's link is held by the slot of the parent, which is not the one the return writes. */
  lemma BackedHeld(s: Sys, c: TaskId)
    requires WellFormed(s.tasks, |s.slots|) && Backed(s) && c in s.pend && s.pend[c].link.Some?
    ensures s.pend[c].link.value in Held(s.slots)
    ensures SafeToSet(s.slots, s.pend[c].pid, s.pend[c].link.value)
  {
    var w := s.pend[c];
    assert Backs(Owners(s), s.tasks, w);
    HeldElsewhere(s.slots, s.tasks[w.parent].pid, w.pid, w.link.value);
  }

  lemma AfterForkHeld(slots: seq<Slot>, f: Forest, d: TaskId, link: Option<Addr>)
    requires d in f && f[d].pid < |slots|
    ensures Held(AfterFork(slots, f, Some(d), link)) <= Held(slots) + Added(link)
    ensures Added(link) <= Held(AfterFork(slots, f, Some(d), link))
  {
    HeldUpdate(slots, f[d].pid, Slot(link, f[d].start));
  }

  /** A return leaves the table sound if and only if there is nobody to find or its link is still on the heap. */
  lemma ReturnSoundIff(s: Sys, c: TaskId)
    requires Sound(s) && c in s.pend
    ensures Sound(Exec(s, ForkReturn(c))) <==>
            FindTask(s.tasks, s.pend[c].pid).None? || Added(s.pend[c].link) <= s.texts.Keys
  {
    match FindTask(s.tasks, s.pend[c].pid)
    case None =>
    case Some(d) => AfterForkHeld(s.slots, s.tasks, d, s.pend[c].link);
  }

  lemma ReturnSound(s: Sys, c: TaskId)
    requires Sound(s) && Backed(s) && c in s.pend
    ensures Sound(Exec(s, ForkReturn(c)))
  {
    ReturnSoundIff(s, c);
    if s.pend[c].link.Some? {
      BackedHeld(s, c);
    }
  }

  /** No other step can store a link that is not on the heap. */
  lemma StepSound(s: Sys, step: Step)
    requires Sound(s) && Enabled(s, step) && !step.ForkReturn?
    ensures Sound(Exec(s, step))
  {
    match step
    case Setchos(_, _, _, _) => SetchosSound(s, step);
    case Resetchos(t) => ResetchosHeld(s.slots, s.tasks, t);
    case Readlink(t) => CompressHeld(s.slots, s.tasks, t);
    case Fork(t, pid, start) => ForkSound(s, t, pid, start);
    case Spawn(t, pid, start) => BearingUp(s, t, pid, start);
    case ForkEnter(t, pid, start) => ForkEnterSound(s, t, pid, start);
    case Exit(e, kids) => ExitSound(s, e, kids);
    case Vanish(e) => ExitForest(s, e);
    case WriteValid(_, _, _) =>
  }

  // ----- the waiting parents -----

  /** Tasks of `busy` keep their pid and, if they have one, their link. */
  ghost predicate Spares(busy: set<TaskId>, s: Sys, s': Sys) {
    && s.next <= s'.next
    && forall p :: p in busy && p in s.tasks ==>
         && p in s'.tasks && PidOf(s'.tasks, p) == PidOf(s.tasks, p)
         && (p in Owners(s) ==> p in Owners(s') && Owners(s')[p] == Owners(s)[p])
  }

  lemma SparedBacked(s: Sys, s': Sys)
    requires Backed(s) && Spares(Busy(s), s, s')
    requires forall c :: c in s'.pend ==> c in s.pend && s'.pend[c] == s.pend[c]
    ensures Backed(s')
  {
    forall c | c in s'.pend ensures c < s'.next && Backs(Owners(s'), s'.tasks, s'.pend[c]) {
      assert Backs(Owners(s), s.tasks, s.pend[c]) && s.pend[c].parent in Busy(s);
    }
  }

  lemma SetchosSpares(s: Sys, step: Step)
    requires Sound(s) && step.Setchos? && Enabled(s, step)
    ensures Spares(Busy(s), s, Exec(s, step))
  {
    if Accepted(s, step.buf, step.count) {
      SetchosOwners(s, step);
    }
  }

  lemma ResetchosSpares(s: Sys, t: TaskId)
    requires Sound(s) && Acting(s, t)
    ensures Spares(Busy(s), s, Exec(s, Resetchos(t)))
  {
    ResetchosOwners(s, t);
  }

  lemma PinSpares(own: map<TaskId, Addr>, up: Parents, t: TaskId)
    requires Rooted(up) && t in up
    ensures forall p :: p in own ==> p in Pin(own, up, t) && Pin(own, up, t)[p] == own[p]
  {
    forall p | p in own ensures p in Pin(own, up, t) && Pin(own, up, t)[p] == own[p] {
      PinKeeps(own, up, t, p);
    }
  }

  lemma ReadlinkSpares(s: Sys, t: TaskId)
    requires Sound(s) && Acting(s, t)
    ensures Spares(Busy(s), s, Exec(s, Readlink(t)))
  {
    ReadlinkOwners(s, t);
    PinSpares(Owners(s), Up(s.tasks), t);
  }

  lemma BornSpares(s: Sys, s': Sys, t: TaskId, pid: nat, start: nat)
    requires Bearing(s, t, pid, start) && s'.tasks == Birth(s.tasks, s.next, Task(pid, start, t)) && s.next <= s'.next
    requires forall p :: p in Owners(s) ==> p in Owners(s') && Owners(s')[p] == Owners(s)[p]
    ensures Spares(Busy(s), s, s')
  {
  }

  lemma ForkSpares(s: Sys, t: TaskId, pid: nat, start: nat)
    requires Sound(s) && Bearing(s, t, pid, start)
    ensures Spares(Busy(s), s, Exec(s, Fork(t, pid, start)))
  {
    ForkKeepsOwners(s, t, pid, start);
    ForkTable(s, t, pid, start);
    BornSpares(s, Exec(s, Fork(t, pid, start)), t, pid, start);
  }

  lemma ForkKeepsOwners(s: Sys, t: TaskId, pid: nat, start: nat)
    requires Sound(s) && Bearing(s, t, pid, start)
    ensures forall p :: p in Owners(s) ==>
              p in Owners(Exec(s, Fork(t, pid, start))) && Owners(Exec(s, Fork(t, pid, start)))[p] == Owners(s)[p]
  {
    ForkOwners(s, t, pid, start);
    PinSpares(Owners(s), Up(s.tasks), t);
  }

  lemma SpawnSpares(s: Sys, t: TaskId, pid: nat, start: nat)
    requires Sound(s) && Enabled(s, Spawn(t, pid, start))
    ensures Spares(Busy(s), s, Exec(s, Spawn(t, pid, start)))
  {
    BirthSpares(s.slots, s.tasks, s.next, Task(pid, start, t));
    BornSpares(s, Exec(s, Spawn(t, pid, start)), t, pid, start);
  }

  lemma BirthSpares(slots: seq<Slot>, f: Forest, c: TaskId, k: Task)
    requires c !in f && c != INIT && k.pid < |slots|
    ensures var own, own' := Own(slots, f), Own(slots, Birth(f, c, k));
            forall p :: p in own ==> p in own' && own'[p] == own[p]
  {
    BirthOwn(slots, f, c, k);
  }

  lemma EnterKeepsOwners(s: Sys, t: TaskId, pid: nat, start: nat)
    requires Sound(s) && Enabled(s, ForkEnter(t, pid, start))
    ensures var pinned, own' := Pin(Owners(s), Up(s.tasks), t), Owners(Exec(s, ForkEnter(t, pid, start)));
            forall p :: p in pinned ==> p in own' && own'[p] == pinned[p]
  {
    OwnCompress(s.slots, s.tasks, t);
    BirthSpares(Compress(s.slots, s.tasks, t), s.tasks, s.next, Task(pid, start, t));
  }

  lemma ForkEnterSpares(s: Sys, t: TaskId, pid: nat, start: nat)
    requires Sound(s) && Enabled(s, ForkEnter(t, pid, start))
    ensures Spares(Busy(s), s, Exec(s, ForkEnter(t, pid, start)))
  {
    EnterKeepsOwners(s, t, pid, start);
    PinSpares(Owners(s), Up(s.tasks), t);
    BornSpares(s, Exec(s, ForkEnter(t, pid, start)), t, pid, start);
  }

  /** The lookup that opens a window leaves the answer in the parent's own slot. */
  lemma EnterBacks(s: Sys, t: TaskId, pid: nat, start: nat)
    requires Sound(s) && Enabled(s, ForkEnter(t, pid, start))
    ensures var s' := Exec(s, ForkEnter(t, pid, start));
            s.next in s'.pend && s.next < s'.next && Backs(Owners(s'), s'.tasks, s'.pend[s.next])
  {
    EnterKeepsOwners(s, t, pid, start);
    ResolveIsFind(s.slots, s.tasks, t);
    assert PidOf(s.tasks, t) != pid;
    if Find(Owners(s), Up(s.tasks), t).Some? {
      PinOwns(Owners(s), Up(s.tasks), t);
    }
  }

  lemma ForkEnterBacked(s: Sys, t: TaskId, pid: nat, start: nat)
    requires Sound(s) && Backed(s) && Enabled(s, ForkEnter(t, pid, start))
    ensures Backed(Exec(s, ForkEnter(t, pid, start)))
  {
    var s' := Exec(s, ForkEnter(t, pid, start));
    ForkEnterSpares(s, t, pid, start);
    EnterBacks(s, t, pid, start);
    forall c | c in s'.pend && c != s.next ensures c < s'.next && Backs(Owners(s'), s'.tasks, s'.pend[c]) {
      assert Backs(Owners(s), s.tasks, s.pend[c]) && s.pend[c].parent in Busy(s);
    }
  }

  lemma ExitSpares(s: Sys, e: TaskId, kids: seq<TaskId>)
    requires Sound(s) && Enabled(s, Exit(e, kids))
    ensures Spares(Busy(s), s, Exec(s, Exit(e, kids)))
  {
    ExitOwners(s, e, kids);
    var pinned := PinAll(Owners(s), Up(s.tasks), kids);
    forall p | p in Owners(s) ensures p in pinned && pinned[p] == Owners(s)[p] {
      PinAllKeeps(Owners(s), Up(s.tasks), kids, p);
    }
  }

  lemma VanishSpares(s: Sys, e: TaskId)
    requires Sound(s) && Enabled(s, Vanish(e))
    ensures Spares(Busy(s), s, Exec(s, Vanish(e)))
  {
    VanishOwners(s, e);
  }

  // ----- the return -----

  lemma ReturnOwners(s: Sys, c: TaskId)
    requires Sound(s) && c in s.pend
    ensures var w := s.pend[c];
            Owners(Exec(s, ForkReturn(c))) ==
              match FindTask(s.tasks, w.pid)
              case None => Owners(s)
              case Some(d) => if w.link.Some? && d != INIT then Owners(s)[d := w.link.value] else Owners(s) - {d}
  {
    var w := s.pend[c];
    match FindTask(s.tasks, w.pid)
    case None =>
    case Some(d) => OwnSet(s.slots, s.tasks, d, w.link, s.tasks[d].start);
  }

  /** One other window, before and after the return. */
  lemma ReturnBacksIff(s: Sys, c: TaskId, d: TaskId)
    requires Sound(s) && c in s.pend && d in s.pend && Backs(Owners(s), s.tasks, s.pend[d])
    ensures Backs(Owners(Exec(s, ForkReturn(c))), s.tasks, s.pend[d]) <==> !Clash(s.tasks, s.pend[c], s.pend[d])
  {
    ReturnOwners(s, c);
    var found, p := FindTask(s.tasks, s.pend[c].pid), s.pend[d].parent;
    assert PidOf(s.tasks, p) == s.pend[c].pid <==> found == Some(p) by {
      assert found.Some? ==> PidOf(s.tasks, found.value) == s.pend[c].pid;
    }
  }

  /**
   A return always stores a link that is on the heap.  Afterwards every other fork under way
   still has its link where it needs it if and only if whoever was found was not itself waiting
   with another link.
   */
  lemma ReturnBackedIff(s: Sys, c: TaskId)
    requires Sound(s) && Backed(s) && c in s.pend
    ensures Sound(Exec(s, ForkReturn(c)))
    ensures Backed(Exec(s, ForkReturn(c))) <==> ReturnSafe(s, c)
  {
    ReturnSound(s, c);
    ReturnBacksOthers(s, c);
    SameBacked(s, Exec(s, ForkReturn(c)), c);
  }

  lemma ReturnBacksOthers(s: Sys, c: TaskId)
    requires Sound(s) && Backed(s) && c in s.pend
    ensures var s' := Exec(s, ForkReturn(c));
            && s'.pend == s.pend - {c} && s'.next == s.next && s'.tasks == s.tasks
            && forall d :: d in s.pend && d != c ==>
                 (Backs(Owners(s'), s.tasks, s.pend[d]) <==> !Clash(s.tasks, s.pend[c], s.pend[d]))
  {
    var s' := Exec(s, ForkReturn(c));
    forall d | d in s.pend && d != c
      ensures Backs(Owners(s'), s.tasks, s.pend[d]) <==> !Clash(s.tasks, s.pend[c], s.pend[d])
    {
      ReturnBacksIff(s, c, d);
    }
  }

  lemma SameBacked(s: Sys, s': Sys, c: TaskId)
    requires Backed(s) && c in s.pend && s'.pend == s.pend - {c} && s'.next == s.next && s'.tasks == s.tasks
    requires forall d :: d in s.pend && d != c ==>
               (Backs(Owners(s'), s.tasks, s.pend[d]) <==> !Clash(s.tasks, s.pend[c], s.pend[d]))
    ensures Backed(s') <==> ReturnSafe(s, c)
  {
    assert forall d :: d in s'.pend ==> d in s.pend && d != c && s'.pend[d] == s.pend[d];
    if Backed(s') {
      forall d | d in s.pend && d != c ensures !Clash(s.tasks, s.pend[c], s.pend[d]) {
        assert d in s'.pend;
      }
    }
  }

  // ----- every step -----

  lemma StepSpares(s: Sys, step: Step)
    requires Sound(s) && Enabled(s, step) && !step.ForkReturn?
    ensures Spares(Busy(s), s, Exec(s, step))
  {
    match step
    case Setchos(_, _, _, _) => SetchosSpares(s, step);
    case Resetchos(t) => ResetchosSpares(s, t);
    case Readlink(t) => ReadlinkSpares(s, t);
    case Fork(t, pid, start) => ForkSpares(s, t, pid, start);
    case Spawn(t, pid, start) => SpawnSpares(s, t, pid, start);
    case ForkEnter(t, pid, start) => ForkEnterSpares(s, t, pid, start);
    case Exit(e, kids) => ExitSpares(s, e, kids);
    case Vanish(e) => VanishSpares(s, e);
    case WriteValid(_, _, _) =>
  }

  /** Whatever tasks do, the heap stays exact and every waiting parent keeps its link. */
  lemma SafeKept(s: Sys, step: Step)
    requires Sound(s) && Backed(s) && Safe(s, step)
    ensures Sound(Exec(s, step)) && Backed(Exec(s, step))
  {
    if step.ForkReturn? {
      ReturnBackedIff(s, step.child);
    } else {
      StepSound(s, step);
      if step.ForkEnter? {
        ForkEnterBacked(s, step.t, step.pid, step.start);
      } else {
        StepSpares(s, step);
        SamePend(s, step);
        SparedBacked(s, Exec(s, step));
      }
    }
  }

  lemma SamePend(s: Sys, step: Step)
    requires Sound(s) && Enabled(s, step) && !step.ForkEnter? && !step.ForkReturn?
    ensures Exec(s, step).pend == s.pend
  {
  }

  // ----- the invariant of undisturbed forks is more than enough -----

  lemma InvBacked(s: Sys)
    requires Inv(s)
    ensures Backed(s)
  {
    forall c | c in s.pend ensures c < s.next && Backs(Owners(s), s.tasks, s.pend[c]) {
      assert WindowOk(Owners(s), Up(s.tasks), c, s.pend[c]);
      ParentIsNotChild(s, c);
    }
  }

  lemma ParentIsNotChild(s: Sys, c: TaskId)
    requires WellFormed(s.tasks, |s.slots|) && Awaited(s) && c in s.pend && s.pend[c].parent in s.tasks
    requires c != INIT && (c in s.tasks ==> Father(s.tasks, c) == s.pend[c].parent)
    ensures PidOf(s.tasks, s.pend[c].parent) != s.pend[c].pid
  {
    assert c in s.tasks ==> Father(s.tasks, c) < c;
  }

  lemma LegalIsSafe(s: Sys, step: Step)
    requires Inv(s) && Legal(s, step)
    ensures Safe(s, step)
  {
    if step.ForkReturn? {
      var c := step.child;
      forall d | d in s.pend && d != c ensures !Clash(s.tasks, s.pend[c], s.pend[d]) {
        assert WindowOk(Owners(s), Up(s.tasks), c, s.pend[c]) && WindowOk(Owners(s), Up(s.tasks), d, s.pend[d]);
        NoClash(s, c, d);
      }
    }
  }

  /** Only the awaited child has its pid, and what it owns is what its parent remembers. */
  lemma NoClash(s: Sys, c: TaskId, d: TaskId)
    requires WellFormed(s.tasks, |s.slots|) && Awaited(s) && c in s.pend && d in s.pend
    requires WindowOk(Owners(s), Up(s.tasks), c, s.pend[c]) && WindowOk(Owners(s), Up(s.tasks), d, s.pend[d])
    ensures !Clash(s.tasks, s.pend[c], s.pend[d])
  {
    assert c in Owners(s) ==> Find(Owners(s), Up(s.tasks), c) == Some(Owners(s)[c]);
  }
}

/**
 What each step of the machine does to the tree of owners.  These lemmas are the bridge
 from slots, pids and start seconds to nearest-ancestor resolution.
 */
module Effects {
  import opened Basics
  import opened Ancestry
  import opened Slots
  import opened LinkTable
  import opened Machine

  lemma OwnAfterSet(slots: seq<Slot>, f: Forest, t: TaskId, addr: Addr)
    requires WellFormed(f, |slots|) && t in f
    ensures Own(AfterSet(slots, f, t, addr), f) == if t == INIT then Own(slots, f) else Own(slots, f)[t := addr]
  {
    OwnSweep(slots, f);
    OwnSet(Sweep(slots, f), f, t, Some(addr), f[t].start);
    assert Own(slots, f) - {INIT} == Own(slots, f);
  }

  lemma OwnAfterFork(slots: seq<Slot>, f: Forest, c: TaskId, k: Task, link: Option<Addr>)
    requires WellFormed(f, |slots|) && CanBeBorn(f, |slots|, c, k) && c != INIT
    ensures Own(slots[k.pid := Slot(link, k.start)], Birth(f, c, k)) ==
            match link case None => Own(slots, f) case Some(a) => Own(slots, f)[c := a]
  {
    var own := Own(slots[k.pid := Slot(link, k.start)], Birth(f, c, k));
    var want := match link case None => Own(slots, f) case Some(a) => Own(slots, f)[c := a];
    forall t ensures (t in own) == (t in want) && (t in own ==> own[t] == want[t]) {
      if t in f {
        assert PidOf(f, t) != k.pid;
      }
    }
    SameMap(own, want);
  }

  lemma OwnReturn(slots: seq<Slot>, f: Forest, c: TaskId, link: Option<Addr>)
    requires WellFormed(f, |slots|) && c in f && c != INIT && (link.None? ==> c !in Own(slots, f))
    ensures Own(slots[f[c].pid := Slot(link, f[c].start)], f) ==
            match link case None => Own(slots, f) case Some(a) => Own(slots, f)[c := a]
  {
    OwnSet(slots, f, c, link, f[c].start);
    assert link.None? ==> Own(slots, f) - {c} == Own(slots, f);
  }

  lemma SetchosOwners(s: Sys, step: Step)
    requires Sound(s) && step.Setchos? && Enabled(s, step) && Accepted(s, step.buf, step.count)
    ensures Owners(Exec(s, step)) == if step.t == INIT then Owners(s) else Owners(s)[step.t := step.addr]
  {
    OwnAfterSet(s.slots, s.tasks, step.t, step.addr);
  }

  lemma ResetchosOwners(s: Sys, t: TaskId)
    requires Sound(s) && Acting(s, t)
    ensures Owners(Exec(s, Resetchos(t))) == Owners(s) - {t}
  {
    OwnSet(s.slots, s.tasks, t, None, 0);
    OwnSweep(s.slots[s.tasks[t].pid := EMPTY], s.tasks);
  }

  lemma ReadlinkOwners(s: Sys, t: TaskId)
    requires Sound(s) && Acting(s, t)
    ensures Owners(Exec(s, Readlink(t))) == Pin(Owners(s), Up(s.tasks), t)
  {
    OwnCompress(s.slots, s.tasks, t);
  }

  /** The child of an atomic fork owns its parent's answer, whatever its slot held before. */
  lemma ForkOwners(s: Sys, t: TaskId, pid: nat, start: nat)
    requires Sound(s) && Bearing(s, t, pid, start)
    ensures var own, up := Owners(s), Up(s.tasks);
            Owners(Exec(s, Fork(t, pid, start))) ==
              match Find(own, up, t) case None => Pin(own, up, t) case Some(a) => Pin(own, up, t)[s.next := a]
  {
    OwnCompress(s.slots, s.tasks, t);
    ResolveIsFind(s.slots, s.tasks, t);
    ForkTable(s, t, pid, start);
    OwnAfterFork(Compress(s.slots, s.tasks, t), s.tasks, s.next, Task(pid, start, t), Resolve(s.slots, s.tasks, t));
  }

  lemma ForkTable(s: Sys, t: TaskId, pid: nat, start: nat)
    requires Sound(s) && Bearing(s, t, pid, start)
    ensures var s', slots := Exec(s, Fork(t, pid, start)), Compress(s.slots, s.tasks, t);
            && s'.slots == slots[pid := Slot(Resolve(s.slots, s.tasks, t), start)]
            && s'.tasks == Birth(s.tasks, s.next, Task(pid, start, t)) && s'.next == s.next + 1 && s'.pend == s.pend
  {
  }

  /** A slot that was filled for nobody alive does not match a (pid, second) not seen before. */
  lemma NotCached(s: Sys, t: TaskId, pid: nat, start: nat)
    requires Sound(s) && Known(s) && Bearing(s, t, pid, start) && (pid, start) !in s.born
    ensures !Cached(s.slots, Task(pid, start, t))
    ensures !Cached(Compress(s.slots, s.tasks, t), Task(pid, start, t))
  {
    CompressShape(s.slots, s.tasks, t, pid);
  }

  lemma SpawnOwners(s: Sys, t: TaskId, pid: nat, start: nat)
    requires Sound(s) && Known(s) && Enabled(s, Spawn(t, pid, start))
    ensures Owners(Exec(s, Spawn(t, pid, start))) == Owners(s)
  {
    NotCached(s, t, pid, start);
    BirthOwn(s.slots, s.tasks, s.next, Task(pid, start, t));
  }

  lemma ForkEnterOwners(s: Sys, t: TaskId, pid: nat, start: nat)
    requires Sound(s) && Known(s) && Enabled(s, ForkEnter(t, pid, start))
    ensures Owners(Exec(s, ForkEnter(t, pid, start))) == Pin(Owners(s), Up(s.tasks), t)
  {
    NotCached(s, t, pid, start);
    EnterTable(s, t, pid, start);
    OwnCompress(s.slots, s.tasks, t);
    BirthOwn(Compress(s.slots, s.tasks, t), s.tasks, s.next, Task(pid, start, t));
  }

  lemma EnterTable(s: Sys, t: TaskId, pid: nat, start: nat)
    requires Sound(s) && Enabled(s, ForkEnter(t, pid, start))
    ensures var s' := Exec(s, ForkEnter(t, pid, start));
            && s'.slots == Compress(s.slots, s.tasks, t)
            && s'.tasks == Birth(s.tasks, s.next, Task(pid, start, t)) && s'.next == s.next + 1
            && s'.pend == s.pend[s.next := Window(t, Resolve(s.slots, s.tasks, t), pid)]
  {
  }

  lemma BearingUp(s: Sys, t: TaskId, pid: nat, start: nat)
    requires Sound(s) && Bearing(s, t, pid, start)
    ensures WellFormed(Born(s, t, pid, start).tasks, |s.slots|)
    ensures Up(Born(s, t, pid, start).tasks) == Up(s.tasks)[s.next := t]
  {
    BirthWellFormed(s.tasks, |s.slots|, s.next, Task(pid, start, t));
    BirthUp(s.tasks, s.next, Task(pid, start, t));
  }

  /** Who is found under the pid of an awaited child. */
  lemma AwaitedTask(s: Sys, c: TaskId)
    requires WellFormed(s.tasks, |s.slots|) && Awaited(s) && c in s.pend
    ensures FindTask(s.tasks, s.pend[c].pid) == if c in s.tasks then Some(c) else None
  {
    var t := FindTask(s.tasks, s.pend[c].pid);
    assert t.Some? ==> PidOf(s.tasks, t.value) == s.pend[c].pid;
    assert c in s.tasks ==> PidOf(s.tasks, c) == s.pend[c].pid;
  }

  lemma ForkReturnOwners(s: Sys, c: TaskId)
    requires Sound(s) && c in s.pend && WindowOk(Owners(s), Up(s.tasks), c, s.pend[c])
    requires FindTask(s.tasks, s.pend[c].pid) == if c in s.tasks then Some(c) else None
    ensures Owners(Exec(s, ForkReturn(c))) ==
            if c in s.tasks && s.pend[c].link.Some? then Owners(s)[c := s.pend[c].link.value] else Owners(s)
  {
    if c in s.tasks {
      OwnReturn(s.slots, s.tasks, c, s.pend[c].link);
    }
  }

  lemma ExitForest(s: Sys, e: TaskId)
    requires WellFormed(s.tasks, |s.slots|) && e in s.tasks && e != INIT
    ensures WellFormed(Without(s.tasks, e), |s.slots|)
    ensures Up(Without(s.tasks, e)) == Reparent(Up(s.tasks), e)
  {
    WithoutWellFormed(s.tasks, |s.slots|, e);
    WithoutUp(s.tasks, e);
  }

  lemma VanishOwners(s: Sys, e: TaskId)
    requires Sound(s) && Enabled(s, Vanish(e))
    ensures Owners(Exec(s, Vanish(e))) == Owners(s) - {e}
  {
    WithoutOwn(s.slots, s.tasks, e);
  }

  lemma ExitOwners(s: Sys, e: TaskId, kids: seq<TaskId>)
    requires Sound(s) && Enabled(s, Exit(e, kids))
    ensures Owners(Exec(s, Exit(e, kids))) == PinAll(Owners(s), Up(s.tasks), kids) - {e}
  {
    OwnCompressAll(s.slots, s.tasks, kids);
    WithoutOwn(CompressAll(s.slots, s.tasks, kids), s.tasks, e);
  }
}

/**
 A child keeps the link its parent had when it was born, and so does everything descended
 from it, through the window of its own fork and through whatever other tasks do - until one
 of the family chooses or resets, or a return meant for another task lands on one of them.
 */
module Inheritance {
  import opened Basics
  import opened Ancestry
  import opened Slots
  import opened Machine
  import opened Effects
  import opened Invariant
  import opened Safety
  import opened Refinement
  import opened Runs

  /** The family after a step: a hooked fork by a member adds the child. */
  ghost function Grown(s: Sys, step: Step, family: set<TaskId>): (r: set<TaskId>)
  {
    if (step.Fork? || step.ForkEnter?) && step.t in family then family + {s.next} else family
  }

  /** No member's write is accepted, and no return brings a member another link than `a`. */
  ghost predicate Quiet(s: Sys, step: Step, family: set<TaskId>, a: Addr)
    requires Enabled(s, step)
  {
    match step
    case Setchos(t, _, buf, count) => t in family ==> !Accepted(s, buf, count)
    case Resetchos(t) => t !in family
    case ForkReturn(c) =>
      forall t :: t in family && t in s.tasks && PidOf(s.tasks, t) == s.pend[c].pid ==> s.pend[c].link == Some(a)
    case _ => true
  }

  /** `t` has `a` in its slot, or nothing there and a fork under way that will bring it `a`. */
  ghost predicate Holds(own: map<TaskId, Addr>, f: Forest, pend: map<TaskId, Window>, t: TaskId, a: Addr)
    requires t in f
  {
    && t != INIT
    && if t in own then own[t] == a
       else t in pend && pend[t] == Window(Father(f, t), Some(a), PidOf(f, t))
  }

  ghost predicate Member(s: Sys, t: TaskId, a: Addr) {
    t < s.next && (t in s.tasks ==> Holds(Owners(s), s.tasks, s.pend, t, a))
  }

  /** Every living member of the family holds `a`, and `a` still reads `text`. */
  ghost predicate Keeps(s: Sys, family: set<TaskId>, a: Addr, text: string) {
    && (forall t :: t in family ==> Member(s, t, a))
    && (family * s.tasks.Keys != {} ==> a in s.texts && s.texts[a] == text)
  }

  // ----- what holding means -----

  lemma HoldsFinds(s: Sys, t: TaskId, a: Addr)
    requires WellFormed(s.tasks, |s.slots|) && Backed(s) && t in s.tasks && Member(s, t, a)
    ensures Find(Owners(s), Up(s.tasks), t) == Some(a)
    ensures exists p :: p in Owners(s) && Owners(s)[p] == a
  {
    if t in Owners(s) {
      assert Owners(s)[t] == a;
    } else {
      var p := Father(s.tasks, t);
      assert s.pend[t].parent == p && Backs(Owners(s), s.tasks, s.pend[t]);
      assert Parent(Up(s.tasks), t) == p && p in Owners(s) && Owners(s)[p] == a;
    }
  }

  lemma HoldsText(s: Sys, t: TaskId, a: Addr)
    requires Sound(s) && Backed(s) && t in s.tasks && Member(s, t, a)
    ensures a in s.texts && a in Held(Sweep(s.slots, s.tasks)) && Resolve(s.slots, s.tasks, t) == Some(a)
  {
    HoldsFinds(s, t, a);
    OwnersSwept(s);
    SweepHeld(s.slots, s.tasks);
    ResolveIsFind(s.slots, s.tasks, t);
  }

  // ----- one member, one step -----

  lemma SetHolds(s: Sys, step: Step, t: TaskId, a: Addr)
    requires Sound(s) && step.Setchos? && Enabled(s, step) && t in s.tasks && Member(s, t, a)
    requires step.t == t ==> !Accepted(s, step.buf, step.count)
    ensures Member(Exec(s, step), t, a)
  {
    if Accepted(s, step.buf, step.count) {
      SetchosOwners(s, step);
    }
  }

  lemma ResetHolds(s: Sys, r: TaskId, t: TaskId, a: Addr)
    requires Sound(s) && Acting(s, r) && t in s.tasks && Member(s, t, a) && r != t
    ensures Member(Exec(s, Resetchos(r)), t, a)
  {
    ResetchosOwners(s, r);
  }

  /** A lookup that passes the member leaves it the answer it has. */
  lemma PinHolds(own: map<TaskId, Addr>, up: Parents, r: TaskId, t: TaskId, a: Addr)
    requires Rooted(up) && r in up && t in up && t != INIT && Find(own, up, t) == Some(a)
    ensures t in own ==> t in Pin(own, up, r)
    ensures t in Pin(own, up, r) ==> Pin(own, up, r)[t] == a
  {
    PinInvisible(own, up, r, t);
    if t in own {
      PinKeeps(own, up, r, t);
    }
  }

  lemma PinAllHolds(own: map<TaskId, Addr>, up: Parents, kids: seq<TaskId>, t: TaskId, a: Addr)
    requires Rooted(up) && (forall k :: k in kids ==> k in up) && t in up && t != INIT && Find(own, up, t) == Some(a)
    ensures t in own ==> t in PinAll(own, up, kids)
    ensures t in PinAll(own, up, kids) ==> PinAll(own, up, kids)[t] == a
  {
    PinAllInvisible(own, up, kids, t);
    if t in own {
      PinAllKeeps(own, up, kids, t);
    }
  }

  lemma ReadHolds(s: Sys, r: TaskId, t: TaskId, a: Addr)
    requires Sound(s) && Backed(s) && Acting(s, r) && t in s.tasks && Member(s, t, a)
    ensures Member(Exec(s, Readlink(r)), t, a)
  {
    HoldsFinds(s, t, a);
    ReadlinkOwners(s, r);
    PinHolds(Owners(s), Up(s.tasks), r, t, a);
  }

  /** Births leave the tasks that are there, their fathers and their windows. */
  lemma BornHolds(s: Sys, s': Sys, b: TaskId, pid: nat, start: nat, t: TaskId, a: Addr)
    requires Bearing(s, b, pid, start) && s'.tasks == Birth(s.tasks, s.next, Task(pid, start, b)) && s.next < s'.next
    requires t in s.tasks && Member(s, t, a) && (t in s.pend ==> t in s'.pend && s'.pend[t] == s.pend[t])
    requires (t in Owners(s) ==> t in Owners(s')) && (t in Owners(s') ==> Owners(s')[t] == a)
    ensures Member(s', t, a)
  {
  }

  lemma ForkHolds(s: Sys, b: TaskId, pid: nat, start: nat, t: TaskId, a: Addr)
    requires Sound(s) && Backed(s) && Bearing(s, b, pid, start) && t in s.tasks && Member(s, t, a)
    ensures Member(Exec(s, Fork(b, pid, start)), t, a)
  {
    HoldsFinds(s, t, a);
    ForkTable(s, b, pid, start);
    ForkKeepsOwner(s, b, pid, start, t, a);
    BornHolds(s, Exec(s, Fork(b, pid, start)), b, pid, start, t, a);
  }

  lemma ForkKeepsOwner(s: Sys, b: TaskId, pid: nat, start: nat, t: TaskId, a: Addr)
    requires Sound(s) && Bearing(s, b, pid, start) && t in s.tasks && t != INIT
    requires Find(Owners(s), Up(s.tasks), t) == Some(a)
    ensures var own' := Owners(Exec(s, Fork(b, pid, start)));
            (t in Owners(s) ==> t in own') && (t in own' ==> own'[t] == a)
  {
    ForkOwners(s, b, pid, start);
    PinHolds(Owners(s), Up(s.tasks), b, t, a);
  }

  lemma SpawnHolds(s: Sys, b: TaskId, pid: nat, start: nat, t: TaskId, a: Addr)
    requires Guarded(s) && Enabled(s, Spawn(b, pid, start)) && t in s.tasks && Member(s, t, a)
    ensures Member(Exec(s, Spawn(b, pid, start)), t, a)
  {
    SpawnOwners(s, b, pid, start);
    BornHolds(s, Exec(s, Spawn(b, pid, start)), b, pid, start, t, a);
  }

  lemma EnterHolds(s: Sys, b: TaskId, pid: nat, start: nat, t: TaskId, a: Addr)
    requires Guarded(s) && Enabled(s, ForkEnter(b, pid, start)) && t in s.tasks && Member(s, t, a)
    ensures Member(Exec(s, ForkEnter(b, pid, start)), t, a)
  {
    HoldsFinds(s, t, a);
    EnterKeepsOwner(s, b, pid, start, t, a);
    EnterTable(s, b, pid, start);
    BornHolds(s, Exec(s, ForkEnter(b, pid, start)), b, pid, start, t, a);
  }

  lemma EnterKeepsOwner(s: Sys, b: TaskId, pid: nat, start: nat, t: TaskId, a: Addr)
    requires Sound(s) && Known(s) && Enabled(s, ForkEnter(b, pid, start)) && t in s.tasks && t != INIT
    requires Find(Owners(s), Up(s.tasks), t) == Some(a)
    ensures var own' := Owners(Exec(s, ForkEnter(b, pid, start)));
            (t in Owners(s) ==> t in own') && (t in own' ==> own'[t] == a)
  {
    ForkEnterOwners(s, b, pid, start);
    PinHolds(Owners(s), Up(s.tasks), b, t, a);
  }

  /** Its own return, or another that brings the same link, or one that lands elsewhere. */
  lemma ReturnHolds(s: Sys, c: TaskId, t: TaskId, a: Addr)
    requires Sound(s) && c in s.pend && t in s.tasks && Member(s, t, a)
    requires PidOf(s.tasks, t) == s.pend[c].pid ==> s.pend[c].link == Some(a)
    ensures Member(Exec(s, ForkReturn(c)), t, a)
  {
    ReturnOwners(s, c);
    var found := FindTask(s.tasks, s.pend[c].pid);
    assert found.Some? ==> PidOf(s.tasks, found.value) == s.pend[c].pid;
    assert PidOf(s.tasks, t) == s.pend[c].pid ==> found == Some(t);
  }

  /** Exits hand the children of `e` to init; a member still waiting is not among them. */
  lemma GoneHolds(s: Sys, s': Sys, e: TaskId, t: TaskId, a: Addr)
    requires Acting(s, e) && s'.tasks == Without(s.tasks, e) && s'.pend == s.pend && s'.next == s.next
    requires t in s'.tasks && Member(s, t, a)
    requires (t in Owners(s) ==> t in Owners(s')) && (t in Owners(s') ==> Owners(s')[t] == a)
    ensures Member(s', t, a)
  {
    if t !in Owners(s') {
      assert s.pend[t].parent in Busy(s);
    }
  }

  lemma ExitHolds(s: Sys, e: TaskId, kids: seq<TaskId>, t: TaskId, a: Addr)
    requires Sound(s) && Backed(s) && Enabled(s, Exit(e, kids)) && t in s.tasks && t != e && Member(s, t, a)
    ensures Member(Exec(s, Exit(e, kids)), t, a)
  {
    HoldsFinds(s, t, a);
    ExitOwners(s, e, kids);
    PinAllHolds(Owners(s), Up(s.tasks), kids, t, a);
    GoneHolds(s, Exec(s, Exit(e, kids)), e, t, a);
  }

  lemma VanishHolds(s: Sys, e: TaskId, t: TaskId, a: Addr)
    requires Sound(s) && Enabled(s, Vanish(e)) && t in s.tasks && t != e && Member(s, t, a)
    ensures Member(Exec(s, Vanish(e)), t, a)
  {
    VanishOwners(s, e);
    GoneHolds(s, Exec(s, Vanish(e)), e, t, a);
  }

  lemma StepHolds(s: Sys, step: Step, family: set<TaskId>, t: TaskId, a: Addr)
    requires Guarded(s) && Enabled(s, step) && Quiet(s, step, family, a) && t in family
    requires t in s.tasks && t in Exec(s, step).tasks && Member(s, t, a)
    ensures Member(Exec(s, step), t, a)
  {
    match step
    case Setchos(_, _, _, _) => SetHolds(s, step, t, a);
    case Resetchos(r) => ResetHolds(s, r, t, a);
    case Readlink(r) => ReadHolds(s, r, t, a);
    case Fork(b, pid, start) => ForkHolds(s, b, pid, start, t, a);
    case Spawn(b, pid, start) => SpawnHolds(s, b, pid, start, t, a);
    case ForkEnter(b, pid, start) => EnterHolds(s, b, pid, start, t, a);
    case ForkReturn(c) => ReturnHolds(s, c, t, a);
    case Exit(e, kids) => ExitHolds(s, e, kids, t, a);
    case Vanish(e) => VanishHolds(s, e, t, a);
    case WriteValid(_, _, _) =>
  }

  // ----- births in the family -----

  /** The child of a hooked fork is born holding what its parent resolves to. */
  lemma ChildHolds(s: Sys, step: Step, a: Addr)
    requires Guarded(s) && Enabled(s, step) && (step.Fork? || step.ForkEnter?)
    requires Find(Owners(s), Up(s.tasks), step.t) == Some(a)
    ensures s.next in Exec(s, step).tasks && Member(Exec(s, step), s.next, a)
  {
    if step.Fork? {
      ForkOwners(s, step.t, step.pid, step.start);
    } else {
      ForkEnterOwners(s, step.t, step.pid, step.start);
      ResolveIsFind(s.slots, s.tasks, step.t);
      NextUnowned(s, step.t);
    }
  }

  /** A member after a step was one before, or was just born to one. */
  lemma Before(s: Sys, step: Step, family: set<TaskId>, t: TaskId)
    requires Sound(s) && Enabled(s, step) && t in Grown(s, step, family) && t in Exec(s, step).tasks
    ensures t == s.next || t in family
    ensures t in s.tasks || (t == s.next && (t in family || ((step.Fork? || step.ForkEnter?) && step.t in family)))
  {
  }

  lemma NextGrows(s: Sys, step: Step)
    requires Sound(s) && Enabled(s, step)
    ensures s.next <= Exec(s, step).next && (step.Fork? || step.ForkEnter? ==> s.next < Exec(s, step).next)
  {
  }

  lemma KeepsMember(s: Sys, step: Step, family: set<TaskId>, a: Addr, t: TaskId)
    requires Guarded(s) && Enabled(s, step) && Quiet(s, step, family, a) && t in Grown(s, step, family)
    requires forall u :: u in family ==> Member(s, u, a)
    ensures Member(Exec(s, step), t, a)
  {
    NextGrows(s, step);
    if t in Exec(s, step).tasks {
      Before(s, step, family, t);
      if t in family {
        assert Member(s, t, a);
        StepHolds(s, step, family, t, a);
      } else {
        HoldsFinds(s, step.t, a);
        ChildHolds(s, step, a);
      }
    }
  }

  // ----- the text -----

  lemma KeepsText(s: Sys, step: Step, family: set<TaskId>, a: Addr, text: string, u: TaskId)
    requires Guarded(s) && Enabled(s, step) && Keeps(s, family, a, text) && Guarded(Exec(s, step))
    requires u in Grown(s, step, family) && u in Exec(s, step).tasks && Member(Exec(s, step), u, a)
    ensures a in Exec(s, step).texts && Exec(s, step).texts[a] == text
  {
    Before(s, step, family, u);
    var t := if u in s.tasks then u else step.t;
    assert Member(s, t, a) && t in family * s.tasks.Keys;
    HoldsText(s, t, a);
    HoldsText(Exec(s, step), u, a);
    TextKept(s, step, a);
  }

  /** One step of anybody leaves every living member its link and the link its text. */
  lemma KeepsStep(s: Sys, step: Step, family: set<TaskId>, a: Addr, text: string)
    requires Guarded(s) && Safe(s, step) && Quiet(s, step, family, a) && Keeps(s, family, a, text)
    ensures Guarded(Exec(s, step)) && Keeps(Exec(s, step), Grown(s, step, family), a, text)
  {
    var s', family' := Exec(s, step), Grown(s, step, family);
    SafeKept(s, step);
    StepKnown(s, step);
    forall t | t in family' ensures Member(s', t, a) {
      KeepsMember(s, step, family, a, t);
    }
    if family' * s'.tasks.Keys != {} {
      var u :| u in family' * s'.tasks.Keys;
      KeepsText(s, step, family, a, text, u);
    }
  }

  // ----- over whole runs -----

  ghost function Family(s: Sys, steps: seq<Step>, family: set<TaskId>): (r: set<TaskId>)
    requires EnabledRun(s, steps)
    decreases |steps|
  {
    if steps == [] then family
    else
      var n := |steps| - 1;
      Grown(Run(s, steps[..n]), steps[n], Family(s, steps[..n], family))
  }

  ghost predicate QuietRun(s: Sys, steps: seq<Step>, family: set<TaskId>, a: Addr)
    requires EnabledRun(s, steps)
    decreases |steps|
  {
    steps == [] ||
      var n := |steps| - 1;
      QuietRun(s, steps[..n], family, a) && Quiet(Run(s, steps[..n]), steps[n], Family(s, steps[..n], family), a)
  }

  lemma {:induction false} KeepsRun(s: Sys, steps: seq<Step>, family: set<TaskId>, a: Addr, text: string)
    requires Guarded(s) && SafeRun(s, steps) && QuietRun(s, steps, family, a) && Keeps(s, family, a, text)
    ensures Guarded(Run(s, steps)) && Keeps(Run(s, steps), Family(s, steps, family), a, text)
    decreases |steps|
  {
    if steps != [] {
      var n := |steps| - 1;
      KeepsRun(s, steps[..n], family, a, text);
      KeepsStep(Run(s, steps[..n]), steps[n], Family(s, steps[..n], family), a, text);
    }
  }

  lemma OneKeeps(s: Sys, t: TaskId, a: Addr)
    requires Sound(s) && Backed(s) && t in s.tasks && Member(s, t, a)
    ensures a in s.texts && Keeps(s, {t}, a, s.texts[a])
  {
    HoldsText(s, t, a);
  }

  lemma KeepsMeans(s: Sys, family: set<TaskId>, a: Addr, text: string, u: TaskId)
    requires Sound(s) && Backed(s) && Keeps(s, family, a, text) && u in family && u in s.tasks
    ensures Resolve(s.slots, s.tasks, u) == Some(a) && a in s.texts && s.texts[a] == text
  {
    assert u in family * s.tasks.Keys;
    HoldsText(s, u, a);
  }

  /** A step that puts no new link on the heap leaves the texts of those that stay. */
  lemma SameText(s: Sys, step: Step, a: Addr)
    requires Sound(s) && Enabled(s, step) && !step.Setchos? && a in Exec(s, step).texts
    ensures a in s.texts && Exec(s, step).texts[a] == s.texts[a]
  {
    StepTexts(s, step);
  }

  /**
   Frozen inheritance, through the window of the fork.  A task born to a parent with link `a`,
   and every task descended from it by hooked forks, resolves to `a` with the text it had,
   after any safe run in which no member of the family writes - lookups, cleanups, nested forks,
   exits of either kind, and choices of all other tasks, in their windows too - and `a` is on
   the heap throughout.
   */
  lemma FrozenInheritance(s: Sys, fork: Step, steps: seq<Step>, a: Addr, u: TaskId)
    requires Guarded(s) && Enabled(s, fork) && (fork.Fork? || fork.ForkEnter?)
    requires Resolve(s.slots, s.tasks, fork.t) == Some(a)
    requires SafeRun(Exec(s, fork), steps) && QuietRun(Exec(s, fork), steps, {s.next}, a)
    requires u in Family(Exec(s, fork), steps, {s.next}) && u in Run(Exec(s, fork), steps).tasks
    ensures a in s.texts
    ensures var end := Run(Exec(s, fork), steps);
            && Guarded(end) && Resolve(end.slots, end.tasks, u) == Some(a)
            && a in end.texts && end.texts[a] == s.texts[a]
  {
    var s1 := Exec(s, fork);
    SafeKept(s, fork);
    StepKnown(s, fork);
    ResolveIsFind(s.slots, s.tasks, fork.t);
    ChildHolds(s, fork, a);
    OneKeeps(s1, s.next, a);
    SameText(s, fork, a);
    KeepsRun(s1, steps, {s.next}, a, s1.texts[a]);
    KeepsMeans(Run(s1, steps), Family(s1, steps, {s.next}), a, s1.texts[a], u);
  }

  /** A read freezes too: the reader and all its later children keep the answer it got. */
  lemma FrozenByReading(s: Sys, t: TaskId, steps: seq<Step>, a: Addr, u: TaskId)
    requires Guarded(s) && Acting(s, t) && Resolve(s.slots, s.tasks, t) == Some(a)
    requires SafeRun(Exec(s, Readlink(t)), steps) && QuietRun(Exec(s, Readlink(t)), steps, {t}, a)
    requires u in Family(Exec(s, Readlink(t)), steps, {t}) && u in Run(Exec(s, Readlink(t)), steps).tasks
    ensures a in s.texts
    ensures var end := Run(Exec(s, Readlink(t)), steps);
            && Guarded(end) && Resolve(end.slots, end.tasks, u) == Some(a)
            && a in end.texts && end.texts[a] == s.texts[a]
  {
    var s1 := Exec(s, Readlink(t));
    SafeKept(s, Readlink(t));
    StepKnown(s, Readlink(t));
    ReaderHolds(s, t, a);
    OneKeeps(s1, t, a);
    SameText(s, Readlink(t), a);
    KeepsRun(s1, steps, {t}, a, s1.texts[a]);
    KeepsMeans(Run(s1, steps), Family(s1, steps, {t}), a, s1.texts[a], u);
  }

  lemma ReaderHolds(s: Sys, t: TaskId, a: Addr)
    requires Sound(s) && Known(s) && Acting(s, t) && Resolve(s.slots, s.tasks, t) == Some(a)
    ensures Member(Exec(s, Readlink(t)), t, a)
  {
    assert PidOf(s.tasks, t) == s.tasks[t].pid;
    ResolveIsFind(s.slots, s.tasks, t);
    ReadlinkOwners(s, t);
    PinOwns(Owners(s), Up(s.tasks), t);
  }

  /** While forks are undisturbed, no return ever lands on a member with another link. */
  lemma LegalReturnIsQuiet(s: Sys, c: TaskId, family: set<TaskId>, a: Addr)
    requires Inv(s) && c in s.pend && forall t :: t in family ==> Member(s, t, a)
    ensures Quiet(s, ForkReturn(c), family, a)
  {
    assert WindowOk(Owners(s), Up(s.tasks), c, s.pend[c]);
    forall t | t in family && t in s.tasks && PidOf(s.tasks, t) == s.pend[c].pid ensures s.pend[c].link == Some(a) {
      assert t == c && Member(s, t, a);
    }
  }
}

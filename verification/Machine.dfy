/**
 The kernel module as a state machine: one step per entry point, over the table, the live
 tasks, the list of valid paths and the forks that are under way.

 A hooked fork is split where the code is: `ForkEnter` looks up the parent's link and lets
 the child run, `ForkReturn` finds the child by pid and sets its link; any steps of other
 tasks may come between.  `Fork` is the same with nothing between, `Spawn` is a fork while
 the hook is not installed.  `Exit` passes through the exit hook, `Vanish` does not.
 */
module Machine {
  import opened Basics
  import opened Ancestry
  import opened Slots
  import opened LinkTable
  import opened Simple

  /** A fork that has entered and not returned: who forked, the link found, the child's pid. */
  datatype Window = Window(parent: TaskId, link: Option<Addr>, pid: nat)

  datatype Sys = Sys(
    slots: seq<Slot>,
    texts: map<Addr, string>,        // the links on the heap
    tasks: Forest,
    next: TaskId,                    // the number the next task gets
    valid: seq<string>,
    pend: map<TaskId, Window>,       // forks under way, by the child they bore
    born: set<(nat, nat)>)           // every (pid, second) of the run so far

  datatype Step =
    | Setchos(t: TaskId, addr: Addr, buf: seq<char>, count: nat)
    | Resetchos(t: TaskId)
    | Readlink(t: TaskId)
    | Fork(t: TaskId, pid: nat, start: nat)
    | Spawn(t: TaskId, pid: nat, start: nat)
    | ForkEnter(t: TaskId, pid: nat, start: nat)
    | ForkReturn(child: TaskId)
    | Exit(t: TaskId, kids: seq<TaskId>)
    | Vanish(t: TaskId)
    | WriteValid(euid: nat, buf: seq<char>, count: nat)

  /** Tasks inside do_fork, which take no other step until it returns. */
  ghost function Busy(s: Sys): (r: set<TaskId>)
  {
    set c | c in s.pend :: s.pend[c].parent
  }

  ghost predicate Acting(s: Sys, t: TaskId) {
    t in s.tasks && t !in Busy(s)
  }

  ghost predicate Bearing(s: Sys, t: TaskId, pid: nat, start: nat) {
    && Acting(s, t) && t < s.next && s.next != INIT
    && CanBeBorn(s.tasks, |s.slots|, s.next, Task(pid, start, t))
  }

  ghost predicate IsChild(s: Sys, e: TaskId, k: TaskId) {
    k in s.tasks && k != INIT && Father(s.tasks, k) == e
  }

  /** What the kernel guarantees about the step it hands to the module. */
  ghost predicate Enabled(s: Sys, step: Step) {
    match step
    case Setchos(t, addr, buf, count) =>
      Acting(s, t) && count <= |buf| && addr !in Retain(Sweep(s.slots, s.tasks), s.texts)
    case Resetchos(t) => Acting(s, t)
    case Readlink(t) => Acting(s, t)
    case Fork(t, pid, start) => Bearing(s, t, pid, start)
    case Spawn(t, pid, start) => Bearing(s, t, pid, start) && (pid, start) !in s.born
    case ForkEnter(t, pid, start) => Bearing(s, t, pid, start) && (pid, start) !in s.born
    case ForkReturn(c) => c in s.pend
    case Exit(t, kids) =>
      && Acting(s, t) && t != INIT
      && (forall k :: k in kids ==> IsChild(s, t, k))
      && (forall k :: IsChild(s, t, k) ==> k in kids)
    case Vanish(t) => Acting(s, t) && t != INIT
    case WriteValid(euid, buf, count) => 0 < |buf| && count <= |buf|
  }

  /**
   What keeps the late `set_link` of a fork from undoing something newer: the child does not
   choose or reset while it is awaited, its pid is not given away, and while the forking
   parent has no link none of the tasks its lookup passed gets one.
   */
  ghost predicate Undisturbed(s: Sys, step: Step)
    requires WellFormed(s.tasks, |s.slots|)
  {
    match step
    case Setchos(t, _, _, _) =>
      && t !in s.pend
      && forall c :: c in s.pend && s.pend[c].link.None? && s.pend[c].parent in s.tasks ==>
           t !in Walk(Own(s.slots, s.tasks), Up(s.tasks), s.pend[c].parent)
    case Resetchos(t) => t !in s.pend
    case Fork(_, pid, _) => forall c :: c in s.pend ==> s.pend[c].pid != pid
    case Spawn(_, pid, _) => forall c :: c in s.pend ==> s.pend[c].pid != pid
    case ForkEnter(_, pid, _) => forall c :: c in s.pend ==> s.pend[c].pid != pid
    case _ => true
  }

  predicate Accepted(s: Sys, buf: seq<char>, count: nat)
    requires count <= |buf|
  {
    Clip(buf, count) == DEFAULT || Clip(buf, count) in s.valid
  }

  /** A new table; the heap keeps exactly the links it holds. */
  ghost function WithSlots(s: Sys, slots: seq<Slot>): (r: Sys)
  {
    s.(slots := slots, texts := Retain(slots, s.texts))
  }

  ghost function Born(s: Sys, t: TaskId, pid: nat, start: nat): (r: Sys)
  {
    s.(tasks := Birth(s.tasks, s.next, Task(pid, start, t)), next := s.next + 1, born := s.born + {(pid, start)})
  }

  ghost predicate Sound(s: Sys) {
    WellFormed(s.tasks, |s.slots|) && s.texts.Keys == Held(s.slots)
  }

  ghost function Exec(s: Sys, step: Step): (r: Sys)
    requires Sound(s) && Enabled(s, step)
  {
    match step
    case Setchos(t, addr, buf, count) =>
      if Accepted(s, buf, count) then
        var slots := AfterSet(s.slots, s.tasks, t, addr);
        var texts := Retain(Sweep(s.slots, s.tasks), s.texts)[addr := Clip(buf, count)];
        s.(slots := slots, texts := Retain(slots, texts))
      else s
    case Resetchos(t) =>
      WithSlots(s, AfterReset(s.slots, s.tasks, t))
    case Readlink(t) =>
      WithSlots(s, Compress(s.slots, s.tasks, t))
    case Fork(t, pid, start) =>
      var slots := Compress(s.slots, s.tasks, t);
      Born(WithSlots(s, slots[pid := Slot(Resolve(s.slots, s.tasks, t), start)]), t, pid, start)
    case Spawn(t, pid, start) =>
      Born(s, t, pid, start)
    case ForkEnter(t, pid, start) =>
      Born(WithSlots(s, Compress(s.slots, s.tasks, t)), t, pid, start)
        .(pend := s.pend[s.next := Window(t, Resolve(s.slots, s.tasks, t), pid)])
    case ForkReturn(c) =>
      var w := s.pend[c];
      WithSlots(s, AfterFork(s.slots, s.tasks, FindTask(s.tasks, w.pid), w.link)).(pend := s.pend - {c})
    case Exit(t, kids) =>
      WithSlots(s, CompressAll(s.slots, s.tasks, kids)).(tasks := Without(s.tasks, t))
    case Vanish(t) =>
      s.(tasks := Without(s.tasks, t))
    case WriteValid(euid, buf, count) =>
      s.(valid := NewValid(s.valid, euid, buf, count))
  }

  /** What the caller of a step gets back. */
  ghost function Observe(s: Sys, step: Step): (r: Reply)
    requires Sound(s) && Enabled(s, step)
  {
    match step
    case Readlink(t) =>
      var link := Resolve(s.slots, s.tasks, t);
      Text(if link.Some? && link.value in s.texts then s.texts[link.value] else DEFAULT)
    case Setchos(_, _, buf, count) => Code(if Accepted(s, buf, count) then 0 else -ENOENT)
    case WriteValid(euid, _, _) => Code(if euid != 0 then -EPERM else 0)
    case _ => Code(0)
  }

  // ----- the invariant -----

  ghost function Owners(s: Sys): (r: map<TaskId, Addr>)
  {
    Own(s.slots, s.tasks)
  }

  /** While a fork is under way its parent holds the link and the child can only get that one. */
  ghost predicate WindowOk(own: map<TaskId, Addr>, up: Parents, c: TaskId, w: Window)
    requires Rooted(up)
  {
    && c != INIT && w.parent in up && Find(own, up, w.parent) == w.link
    && (w.link.Some? ==> w.parent in own)
    && (c in own ==> w.link == Some(own[c]))
    && (c in up ==> Parent(up, c) == w.parent)
  }

  ghost predicate AllOk(own: map<TaskId, Addr>, up: Parents, pend: map<TaskId, Window>)
    requires Rooted(up)
  {
    forall c :: c in pend ==> WindowOk(own, up, c, pend[c])
  }

  ghost predicate AllWindows(s: Sys)
    requires WellFormed(s.tasks, |s.slots|)
  {
    AllOk(Owners(s), Up(s.tasks), s.pend)
  }

  /** The pid of an awaited child is the child's or nobody's. */
  ghost predicate Awaited(s: Sys) {
    && (forall c :: c in s.pend && c in s.tasks ==> s.tasks[c].pid == s.pend[c].pid)
    && (forall c, t {:trigger s.pend[c], PidOf(s.tasks, t)} ::
          c in s.pend && t in s.tasks && PidOf(s.tasks, t) == s.pend[c].pid ==> t == c)
    && (forall c :: c in s.pend ==> c < s.next)
  }

  /** Every task and every filled slot has a (pid, second) that occurred in the run. */
  ghost predicate Known(s: Sys) {
    && INIT < s.next
    && KnownTasks(s.tasks, s.next, s.born)
    && KnownSlots(s.slots, s.born)
  }

  ghost predicate KnownTasks(f: Forest, next: TaskId, born: set<(nat, nat)>) {
    forall t {:trigger PidOf(f, t)} :: t in f ==> t < next && (PidOf(f, t), f[t].start) in born
  }

  ghost predicate KnownSlots(slots: seq<Slot>, born: set<(nat, nat)>) {
    forall i :: 0 <= i < |slots| && slots[i].link.Some? ==> (i, slots[i].start) in born
  }

  ghost predicate Inv(s: Sys) {
    Sound(s) && Known(s) && AllWindows(s) && Awaited(s)
  }

  ghost predicate Legal(s: Sys, step: Step)
    requires Sound(s)
  {
    Enabled(s, step) && Undisturbed(s, step)
  }

  // ----- what heap safety needs, and all that it needs -----

  /** A task under way inside do_fork has its link in its own slot, and is not whom it will look for. */
  ghost predicate Backs(own: map<TaskId, Addr>, f: Forest, w: Window) {
    && w.parent in f && PidOf(f, w.parent) != w.pid
    && (w.link.Some? ==> w.parent in own && own[w.parent] == w.link.value)
  }

  ghost predicate Backed(s: Sys) {
    forall c :: c in s.pend ==> c < s.next && Backs(Owners(s), s.tasks, s.pend[c])
  }

  /** Whoever one return finds is the one that waits for another return, with another link. */
  ghost predicate Clash(f: Forest, w: Window, other: Window) {
    other.link.Some? && other.link != w.link && other.parent in f && PidOf(f, other.parent) == w.pid
  }

  ghost predicate ReturnSafe(s: Sys, c: TaskId)
    requires c in s.pend
  {
    forall d :: d in s.pend && d != c ==> !Clash(s.tasks, s.pend[c], s.pend[d])
  }

  ghost predicate Guarded(s: Sys) {
    Sound(s) && Known(s) && Backed(s)
  }

  ghost predicate Safe(s: Sys, step: Step) {
    Enabled(s, step) && (step.ForkReturn? ==> ReturnSafe(s, step.child))
  }

  /** A fresh table over the tasks that are alive when the module is loaded. */
  ghost predicate Initial(s: Sys) {
    && WellFormed(s.tasks, |s.slots|) && s.texts == map[] && s.pend == map[]
    && (forall i :: 0 <= i < |s.slots| ==> s.slots[i].link == None)
    && INIT < s.next && KnownTasks(s.tasks, s.next, s.born)
  }

  lemma InitialInv(s: Sys)
    requires Initial(s)
    ensures Inv(s)
  {
    assert Held(s.slots) == {};
  }
}

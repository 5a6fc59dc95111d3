/**
 The imperative table does what the state machine says, over whole runs.  `k` is the machine
 state the table stands for.  What the kernel knows is real here: the live tasks `f`, the number
 `next` the next-born gets, and `windows`, the local variables of the callers that are inside
 do_fork.
 */
module Dispatch {
  import opened Basics
  import opened Ancestry
  import opened Slots
  import opened RefCounts
  import opened LinkTable
  import opened Machine
  import opened Safety
  import opened Simple
  import opened Runs

  /** The table is the table part of machine state `k`; its counts are exact. */
  ghost predicate Stands(ch: Chos, k: Sys)
    reads ch, ch.procs
  {
    && ch.Valid() && k.slots == ch.Slots() && k.texts == Texts(ch.heap) && k.valid == ch.valid
  }

  ghost predicate Shows(k: Sys, f: Forest, next: TaskId, windows: map<TaskId, Window>) {
    k.tasks == f && k.next == next && k.pend == windows
  }

  predicate IsHook(step: Step) {
    step.Fork? || step.Spawn? || step.ForkEnter? || step.ForkReturn? || step.Exit? || step.Vanish?
  }

  method ServeWriter(ch: Chos, f: Forest, step: Step, ghost k: Sys) returns (reply: Reply)
    requires !IsHook(step) && Stands(ch, k) && k.tasks == f && Sound(k) && Enabled(k, step)
    modifies ch, ch.procs
    ensures Stands(ch, Exec(k, step)) && reply == Observe(k, step)
  {
    ghost var heap0 := ch.heap;
    match step {
      case Setchos(t, addr, buf, count) =>
        var ret := ch.WriteSetchos(f, t, addr, buf, count);
        reply := Code(if ret < 0 then ret else 0);
      case Resetchos(t) =>
        var _ := ch.WriteResetchos(f, t, 0);
        TextsRetained(heap0, ch.Slots(), ch.heap);
        reply := Code(0);
      case Readlink(t) =>
        var text := ch.LinkReadlink(f, t);
        TextsRetained(heap0, ch.Slots(), ch.heap);
        reply := Text(text);
      case WriteValid(euid, buf, count) =>
        var ret := ch.WriteValid(euid, buf, count);
        reply := Code(if ret < 0 then ret else 0);
    }
  }

  /** A fork that enters leaves its window; one that returns uses it up. */
  method ServeHook(ch: Chos, f: Forest, next: TaskId, windows: map<TaskId, Window>, step: Step, ghost k: Sys)
    returns (left: map<TaskId, Window>)
    requires IsHook(step) && Stands(ch, k) && Shows(k, f, next, windows)
    requires Sound(k) && Backed(k) && Enabled(k, step)
    modifies ch, ch.procs
    ensures Stands(ch, Exec(k, step)) && left == Exec(k, step).pend
  {
    ghost var heap0 := ch.heap;
    left := windows;
    match step {
      case Fork(t, pid, start) =>
        ch.ChosDoFork(f, t, Some((next, Task(pid, start, t))));
      case Spawn(_, _, _) =>
      case ForkEnter(t, pid, _) =>
        var link := ch.LookupLink(f, Some(t));
        left := windows[next := Window(t, link, pid)];
      case ForkReturn(c) =>
        if windows[c].link.Some? {
          BackedHeld(k, c);
        }
        ch.ForkReturn(f, windows[c].link, windows[c].pid);
        left := windows - {c};
      case Exit(_, kids) =>
        ch.MySysExit(f, kids);
      case Vanish(_) =>
    }
    TextsRetained(heap0, ch.Slots(), ch.heap);
  }

  /** The kernel's own list of tasks after a step, and the next number. */
  function KernelTasks(f: Forest, next: TaskId, step: Step): (Forest, TaskId)
  {
    match step
    case Fork(t, pid, start) => (Birth(f, next, Task(pid, start, t)), next + 1)
    case Spawn(t, pid, start) => (Birth(f, next, Task(pid, start, t)), next + 1)
    case ForkEnter(t, pid, start) => (Birth(f, next, Task(pid, start, t)), next + 1)
    case Exit(t, _) => (Without(f, t), next)
    case Vanish(t) => (Without(f, t), next)
    case _ => (f, next)
  }

  lemma KernelKnows(k: Sys, step: Step)
    requires Sound(k) && Enabled(k, step)
    ensures KernelTasks(k.tasks, k.next, step) == (Exec(k, step).tasks, Exec(k, step).next)
    ensures !IsHook(step) ==> Exec(k, step).pend == k.pend
    ensures IsHook(step) ==> Observe(k, step) == Code(0)
  {
  }

  /** Any one step. */
  method Serve(ch: Chos, f: Forest, next: TaskId, windows: map<TaskId, Window>, step: Step, ghost k: Sys)
    returns (reply: Reply, left: map<TaskId, Window>)
    requires Stands(ch, k) && Shows(k, f, next, windows) && Sound(k) && Backed(k) && Enabled(k, step)
    modifies ch, ch.procs
    ensures Stands(ch, Exec(k, step)) && left == Exec(k, step).pend && reply == Observe(k, step)
  {
    KernelKnows(k, step);
    if IsHook(step) {
      left := ServeHook(ch, f, next, windows, step, k);
      reply := Code(0);
    } else {
      reply := ServeWriter(ch, f, step, k);
      left := windows;
    }
  }

  /**
   A whole run on the real table: after every step its slots, texts and list of valid paths are
   the machine's, its counts are exact, what suspended callers remember is what the machine
   remembers, and every reply is the machine's.
   */
  method ServeRun(ch: Chos, f0: Forest, next0: TaskId, windows0: map<TaskId, Window>, steps: seq<Step>, ghost k: Sys)
    returns (replies: seq<Reply>, f: Forest, next: TaskId, windows: map<TaskId, Window>)
    requires Stands(ch, k) && Shows(k, f0, next0, windows0) && Sound(k) && Backed(k) && SafeRun(k, steps)
    modifies ch, ch.procs
    ensures Stands(ch, Run(k, steps)) && Shows(Run(k, steps), f, next, windows)
    ensures replies == Replies(k, steps)
  {
    replies, f, next, windows := [], f0, next0, windows0;
    for i := 0 to |steps|
      invariant SafeRun(k, steps[..i])
      invariant Stands(ch, Run(k, steps[..i])) && Shows(Run(k, steps[..i]), f, next, windows)
      invariant replies == Replies(k, steps[..i])
    {
      ghost var before := Run(k, steps[..i]);
      NextServed(k, steps, i);
      var reply, left := Serve(ch, f, next, windows, steps[i], before);
      KernelKnows(before, steps[i]);
      var (f1, next1) := KernelTasks(f, next, steps[i]);
      replies, f, next, windows := replies + [reply], f1, next1, left;
    }
    assert steps[..|steps|] == steps;
  }

  lemma NextServed(k: Sys, steps: seq<Step>, i: nat)
    requires Sound(k) && Backed(k) && SafeRun(k, steps) && i < |steps| && SafeRun(k, steps[..i])
    ensures Sound(Run(k, steps[..i])) && Backed(Run(k, steps[..i])) && Enabled(Run(k, steps[..i]), steps[i])
    ensures SafeRun(k, steps[..i + 1]) && Run(k, steps[..i + 1]) == Exec(Run(k, steps[..i]), steps[i])
    ensures Replies(k, steps[..i + 1]) == Replies(k, steps[..i]) + [Observe(Run(k, steps[..i]), steps[i])]
  {
    RunSafe(k, steps[..i]);
    SafePrefix(k, steps, i + 1);
    assert steps[..i + 1][..i] == steps[..i];
  }
}

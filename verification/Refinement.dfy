/**
 Every legal run of the kernel module reads what the simple machine reads.

 The two are related by `Settled`: the live tasks with a valid slot, together with the
 children whose `set_link` is still to come.
 */
module Refinement {
  import opened Basics
  import opened Ancestry
  import opened Slots
  import opened LinkTable
  import opened Machine
  import opened Effects
  import opened Invariant
  import opened Simple

  /** The links that forks under way are going to set on children still alive. */
  ghost function Coming(pend: map<TaskId, Window>, alive: set<TaskId>): (r: map<TaskId, Addr>)
  {
    map c | c in pend && c in alive && pend[c].link.Some? :: pend[c].link.value
  }

  ghost function Settled(s: Sys): (r: map<TaskId, Addr>)
  {
    Owners(s) + Coming(s.pend, s.tasks.Keys)
  }

  /** What a step is to somebody who knows only tasks and owners. */
  ghost function ActOf(s: Sys, step: Step): (r: Act<Addr>)
    requires Enabled(s, step)
  {
    match step
    case Setchos(t, addr, buf, count) => if Accepted(s, buf, count) then Choose(t, addr) else Idle
    case Resetchos(t) => Forget(t)
    case Readlink(t) => Look(t)
    case Fork(t, _, _) => Bear(t)
    case Spawn(t, _, _) => BearBare(t)
    case ForkEnter(t, _, _) => Bear(t)
    case ForkReturn(_) => Idle
    case Exit(t, kids) => Die(t, kids)
    case Vanish(t) => Die(t, [])
    case WriteValid(_, _, _) => Idle
  }

  lemma ComingMirrors(s: Sys)
    requires WellFormed(s.tasks, |s.slots|) && AllWindows(s)
    ensures Mirrors(Owners(s), Up(s.tasks), Coming(s.pend, s.tasks.Keys))
  {
    var extra := Coming(s.pend, s.tasks.Keys);
    forall c | c in extra
      ensures c in Up(s.tasks) && c != INIT
      ensures if c in Owners(s) then Owners(s)[c] == extra[c]
              else var p := Parent(Up(s.tasks), c); p != INIT && p in Owners(s) && Owners(s)[p] == extra[c]
    {
      assert WindowOk(Owners(s), Up(s.tasks), c, s.pend[c]);
    }
  }

  /** The settled owners give every live task the answer the table gives it. */
  lemma SettledAnswers(s: Sys, t: TaskId)
    requires WellFormed(s.tasks, |s.slots|) && AllWindows(s) && t in s.tasks
    ensures Find(Settled(s), Up(s.tasks), t) == Resolve(s.slots, s.tasks, t)
  {
    ComingMirrors(s);
    OverlayFind(Owners(s), Up(s.tasks), Coming(s.pend, s.tasks.Keys), t);
    ResolveIsFind(s.slots, s.tasks, t);
  }

  // ----- laying the coming links over the owners -----

  lemma OverSet<V>(own: map<TaskId, V>, extra: map<TaskId, V>, t: TaskId, v: V)
    requires t !in extra
    ensures own[t := v] + extra == (own + extra)[t := v]
  {
  }

  lemma OverNext<V>(own: map<TaskId, V>, extra: map<TaskId, V>, t: TaskId, v: V)
    ensures own + extra[t := v] == (own + extra)[t := v]
  {
  }

  lemma OverRemove<V>(own: map<TaskId, V>, extra: map<TaskId, V>, t: TaskId)
    ensures (own - {t}) + (extra - {t}) == (own + extra) - {t}
    ensures t !in extra ==> extra - {t} == extra
  {
  }

  lemma OverReturn<V>(own: map<TaskId, V>, extra: map<TaskId, V>, t: TaskId)
    ensures t in extra ==> own[t := extra[t]] + (extra - {t}) == own + extra
    ensures t !in extra ==> own + (extra - {t}) == own + extra
  {
  }

  lemma ComingBirth(pend: map<TaskId, Window>, alive: set<TaskId>, n: TaskId, w: Window)
    requires n !in pend && n !in alive
    ensures Coming(pend, alive + {n}) == Coming(pend, alive)
    ensures Coming(pend[n := w], alive + {n}) ==
            match w.link case None => Coming(pend, alive) case Some(a) => Coming(pend, alive)[n := a]
  {
  }

  lemma ComingWithout(pend: map<TaskId, Window>, alive: set<TaskId>, c: TaskId)
    ensures Coming(pend - {c}, alive) == Coming(pend, alive) - {c}
    ensures Coming(pend, alive - {c}) == Coming(pend, alive) - {c}
  {
  }

  // ----- what each step does to the settled owners -----

  lemma SetchosSettled(s: Sys, step: Step)
    requires Sound(s) && step.Setchos? && Legal(s, step) && Accepted(s, step.buf, step.count)
    ensures Settled(Exec(s, step)) == if step.t == INIT then Settled(s) else Settled(s)[step.t := step.addr]
  {
    SetchosOwners(s, step);
    OverSet(Owners(s), Coming(s.pend, s.tasks.Keys), step.t, step.addr);
  }

  lemma ResetchosSettled(s: Sys, t: TaskId)
    requires Sound(s) && Legal(s, Resetchos(t))
    ensures Settled(Exec(s, Resetchos(t))) == Settled(s) - {t}
  {
    ResetchosOwners(s, t);
    OverRemove(Owners(s), Coming(s.pend, s.tasks.Keys), t);
  }

  lemma ReadlinkSettled(s: Sys, t: TaskId)
    requires Sound(s) && AllWindows(s) && Acting(s, t)
    ensures Settled(Exec(s, Readlink(t))) == Pin(Settled(s), Up(s.tasks), t)
  {
    ReadlinkOwners(s, t);
    ComingMirrors(s);
    OverlayPin(Owners(s), Up(s.tasks), Coming(s.pend, s.tasks.Keys), t);
  }

  lemma BearSettled(own: map<TaskId, Addr>, extra: map<TaskId, Addr>, up: Parents, t: TaskId, n: TaskId)
    requires Rooted(up) && Mirrors(own, up, extra) && t in up && t < n && n !in up
    ensures OwnStep(own + extra, up, n, Bear(t)) == OwnStep(own, up, n, Bear(t)) + extra
    ensures OwnStep(own + extra, up, n, Bear(t)) ==
            Pin(own, up, t) + match Find(own, up, t) case None => extra case Some(a) => extra[n := a]
  {
    OverlayFind(own, up, extra, t);
    OverlayPin(own, up, extra, t);
    if Find(own, up, t).Some? {
      OverSet(Pin(own, up, t), extra, n, Find(own, up, t).value);
      OverNext(Pin(own, up, t), extra, n, Find(own, up, t).value);
    }
  }

  lemma ForkSettled(s: Sys, t: TaskId, pid: nat, start: nat)
    requires Sound(s) && AllWindows(s) && s.next !in s.pend && Bearing(s, t, pid, start)
    ensures Settled(Exec(s, Fork(t, pid, start))) == OwnStep(Settled(s), Up(s.tasks), s.next, Bear(t))
  {
    var extra := Coming(s.pend, s.tasks.Keys);
    ForkOwners(s, t, pid, start);
    ComingMirrors(s);
    BearSettled(Owners(s), extra, Up(s.tasks), t, s.next);
    ComingBirth(s.pend, s.tasks.Keys, s.next, Window(t, None, pid));
    assert Settled(Exec(s, Fork(t, pid, start))) == Owners(Exec(s, Fork(t, pid, start))) + extra;
  }

  lemma SpawnSettled(s: Sys, t: TaskId, pid: nat, start: nat)
    requires Inv(s) && Legal(s, Spawn(t, pid, start))
    ensures Settled(Exec(s, Spawn(t, pid, start))) == Settled(s)
  {
    SpawnOwners(s, t, pid, start);
    assert Exec(s, Spawn(t, pid, start)).tasks.Keys == s.tasks.Keys + {s.next};
    ComingBirth(s.pend, s.tasks.Keys, s.next, Window(t, None, pid));
  }

  lemma ForkEnterSettled(s: Sys, t: TaskId, pid: nat, start: nat)
    requires Inv(s) && Legal(s, ForkEnter(t, pid, start))
    ensures Settled(Exec(s, ForkEnter(t, pid, start))) == OwnStep(Settled(s), Up(s.tasks), s.next, Bear(t))
  {
    EnterTable(s, t, pid, start);
    ForkEnterOwners(s, t, pid, start);
    ComingMirrors(s);
    BearSettled(Owners(s), Coming(s.pend, s.tasks.Keys), Up(s.tasks), t, s.next);
    ResolveIsFind(s.slots, s.tasks, t);
    ComingBirth(s.pend, s.tasks.Keys, s.next, Window(t, Resolve(s.slots, s.tasks, t), pid));
  }

  lemma ForkReturnSettled(s: Sys, c: TaskId)
    requires Sound(s) && AllWindows(s) && c in s.pend
    requires FindTask(s.tasks, s.pend[c].pid) == if c in s.tasks then Some(c) else None
    ensures Settled(Exec(s, ForkReturn(c))) == Settled(s)
  {
    var s', extra := Exec(s, ForkReturn(c)), Coming(s.pend, s.tasks.Keys);
    ForkReturnOwners(s, c);
    assert Owners(s') == if c in extra then Owners(s)[c := extra[c]] else Owners(s);
    ComingWithout(s.pend, s.tasks.Keys, c);
    assert Coming(s'.pend, s'.tasks.Keys) == extra - {c};
    OverReturn(Owners(s), extra, c);
  }

  lemma ExitSettled(s: Sys, e: TaskId, kids: seq<TaskId>)
    requires Sound(s) && AllWindows(s) && Enabled(s, Exit(e, kids))
    ensures Settled(Exec(s, Exit(e, kids))) == PinAll(Settled(s), Up(s.tasks), kids) - {e}
  {
    var extra := Coming(s.pend, s.tasks.Keys);
    ExitOwners(s, e, kids);
    ComingMirrors(s);
    OverlayPinAll(Owners(s), Up(s.tasks), extra, kids);
    ComingWithout(s.pend, s.tasks.Keys, e);
    OverRemove(PinAll(Owners(s), Up(s.tasks), kids), extra, e);
  }

  lemma VanishSettled(s: Sys, e: TaskId)
    requires Sound(s) && Enabled(s, Vanish(e))
    ensures Settled(Exec(s, Vanish(e))) == Settled(s) - {e}
  {
    var extra := Coming(s.pend, s.tasks.Keys);
    VanishOwners(s, e);
    ComingWithout(s.pend, s.tasks.Keys, e);
    OverRemove(Owners(s), extra, e);
  }

  // ----- one step -----

  lemma CanAct(s: Sys, step: Step)
    requires Sound(s) && Enabled(s, step)
    ensures Can(Up(s.tasks), s.next, ActOf(s, step))
  {
  }

  /** One step of the kernel module is one step of the tree of owners. */
  lemma StepSettled(s: Sys, step: Step)
    requires Inv(s) && Legal(s, step) && Can(Up(s.tasks), s.next, ActOf(s, step))
    ensures Settled(Exec(s, step)) == OwnStep(Settled(s), Up(s.tasks), s.next, ActOf(s, step))
  {
    if step.Setchos? || step.Resetchos? || step.WriteValid? {
      WriterSettled(s, step);
    } else if step.Fork? || step.Spawn? || step.ForkEnter? {
      BirthSettled(s, step);
    } else {
      OtherSettled(s, step);
    }
  }

  lemma WriterSettled(s: Sys, step: Step)
    requires Inv(s) && Legal(s, step) && Can(Up(s.tasks), s.next, ActOf(s, step))
    requires step.Setchos? || step.Resetchos? || step.WriteValid?
    ensures Settled(Exec(s, step)) == OwnStep(Settled(s), Up(s.tasks), s.next, ActOf(s, step))
  {
    if step.Setchos? && Accepted(s, step.buf, step.count) {
      SetchosSettled(s, step);
    } else if step.Resetchos? {
      ResetchosSettled(s, step.t);
    }
  }

  lemma BirthSettled(s: Sys, step: Step)
    requires Inv(s) && Legal(s, step) && Can(Up(s.tasks), s.next, ActOf(s, step))
    requires step.Fork? || step.Spawn? || step.ForkEnter?
    ensures Settled(Exec(s, step)) == OwnStep(Settled(s), Up(s.tasks), s.next, ActOf(s, step))
  {
    match step
    case Fork(t, pid, start) => ForkSettled(s, t, pid, start);
    case Spawn(t, pid, start) => SpawnSettled(s, t, pid, start);
    case ForkEnter(t, pid, start) => ForkEnterSettled(s, t, pid, start);
  }

  lemma OtherSettled(s: Sys, step: Step)
    requires Inv(s) && Legal(s, step) && Can(Up(s.tasks), s.next, ActOf(s, step))
    requires step.Readlink? || step.ForkReturn? || step.Exit? || step.Vanish?
    ensures Settled(Exec(s, step)) == OwnStep(Settled(s), Up(s.tasks), s.next, ActOf(s, step))
  {
    if step.Readlink? {
      ReadlinkSettled(s, step.t);
    } else if step.ForkReturn? {
      AwaitedTask(s, step.child);
      ForkReturnSettled(s, step.child);
    } else if step.Exit? {
      ExitSettled(s, step.t, step.kids);
    } else {
      VanishSettled(s, step.t);
    }
  }

  lemma BearTree(s: Sys, step: Step)
    requires Sound(s) && Enabled(s, step) && (step.Fork? || step.Spawn? || step.ForkEnter?)
    ensures Up(Exec(s, step).tasks) == Up(s.tasks)[s.next := step.t] && Exec(s, step).next == s.next + 1
  {
    BearingUp(s, step.t, step.pid, step.start);
  }

  lemma OtherTree(s: Sys, step: Step)
    requires Sound(s) && Enabled(s, step) && !(step.Fork? || step.Spawn? || step.ForkEnter?)
    ensures Exec(s, step).tasks == (if step.Exit? || step.Vanish? then Without(s.tasks, step.t) else s.tasks)
    ensures Exec(s, step).next == s.next
  {
  }

  lemma StepTree(s: Sys, step: Step)
    requires Sound(s) && Enabled(s, step) && Can(Up(s.tasks), s.next, ActOf(s, step))
    ensures Up(Exec(s, step).tasks) == UpStep(Up(s.tasks), s.next, ActOf(s, step))
    ensures Exec(s, step).next == NextStep(s.next, ActOf(s, step))
  {
    if step.Fork? || step.Spawn? || step.ForkEnter? {
      BearTree(s, step);
    } else {
      OtherTree(s, step);
      if step.Exit? || step.Vanish? {
        ExitForest(s, step.t);
      }
    }
  }

  // ----- from addresses to texts -----

  /** The step as the simple machine sees it. */
  function Erase(step: Step): (e: Event)
    requires step.Setchos? ==> step.count <= |step.buf|
  {
    match step
    case Setchos(t, _, buf, count) => Writes(t, Clip(buf, count))
    case Resetchos(t) => Resets(t)
    case Readlink(t) => Reads(t)
    case Fork(t, _, _) => Forks(t)
    case Spawn(t, _, _) => Spawns(t)
    case ForkEnter(t, _, _) => Forks(t)
    case ForkReturn(_) => Nothing
    case Exit(t, kids) => Exits(t, kids)
    case Vanish(t) => Exits(t, [])
    case WriteValid(euid, buf, count) => Permits(euid, buf, count)
  }

  /** Every settled link is held by a slot that no sweep clears. */
  lemma SettledSwept(s: Sys)
    requires WellFormed(s.tasks, |s.slots|) && AllWindows(s)
    ensures Settled(s).Values <= Held(Sweep(s.slots, s.tasks))
  {
    OwnersSwept(s);
    ComingMirrors(s);
    var extra := Coming(s.pend, s.tasks.Keys);
    forall a | a in Settled(s).Values ensures a in Held(Sweep(s.slots, s.tasks)) {
      var t :| t in Settled(s) && Settled(s)[t] == a;
      if t in extra && t !in Owners(s) {
        assert Owners(s)[Parent(Up(s.tasks), t)] == a;
      } else {
        assert Owners(s)[t] == a;
      }
    }
  }

  lemma OwnersSwept(s: Sys)
    requires WellFormed(s.tasks, |s.slots|)
    ensures forall t :: t in Owners(s) ==> Owners(s)[t] in Held(Sweep(s.slots, s.tasks))
  {
    OwnSweep(s.slots, s.tasks);
    var swept := Sweep(s.slots, s.tasks);
    forall t | t in Own(swept, s.tasks) ensures Own(swept, s.tasks)[t] in Held(swept) {
    }
  }

  lemma SettledHeld(s: Sys)
    requires Sound(s) && AllWindows(s)
    ensures Settled(s).Values <= s.texts.Keys
  {
    SettledSwept(s);
    SweepHeld(s.slots, s.tasks);
  }

  /** What the simple machine sees of a state of the kernel module. */
  ghost function View(s: Sys): (m: Owned)
    requires Sound(s) && AllWindows(s)
  {
    SettledHeld(s);
    Owned(Render(Settled(s), s.texts), Up(s.tasks), s.next, s.valid)
  }

  /** Only an accepted write puts a new link on the heap. */
  lemma StepTexts(s: Sys, step: Step)
    requires Sound(s) && Enabled(s, step)
    requires step.Setchos? ==> !Accepted(s, step.buf, step.count)
    ensures Exec(s, step).texts.Keys <= s.texts.Keys
    ensures forall a :: a in Exec(s, step).texts ==> Exec(s, step).texts[a] == s.texts[a]
  {
  }

  lemma RenderSame(own: map<TaskId, Addr>, g: map<Addr, string>, g': map<Addr, string>)
    requires own.Values <= g'.Keys <= g.Keys && forall a :: a in g' ==> g'[a] == g[a]
    ensures Render(own, g') == Render(own, g)
  {
  }

  lemma PlainViewOwn(s: Sys, step: Step)
    requires Inv(s) && Legal(s, step) && Inv(Exec(s, step))
    requires step.Setchos? ==> !Accepted(s, step.buf, step.count)
    requires Possible(View(s), Erase(step)) && Can(Up(s.tasks), s.next, ActOf(s, step))
    requires SeenAs(ActOf(s, step), EventAct(View(s), Erase(step)), s.texts)
    ensures View(Exec(s, step)).own == SimpleExec(View(s), Erase(step)).own
  {
    var s' := Exec(s, step);
    SettledHeld(s);
    SettledHeld(s');
    StepSettled(s, step);
    StepTexts(s, step);
    RenderSame(Settled(s'), s.texts, s'.texts);
    RenderStep(Settled(s), s.texts, Up(s.tasks), s.next, ActOf(s, step), EventAct(View(s), Erase(step)));
  }

  lemma WriteTexts(s: Sys, step: Step)
    requires Sound(s) && step.Setchos? && Enabled(s, step) && Accepted(s, step.buf, step.count)
    ensures forall a :: a in Exec(s, step).texts ==>
              if a == step.addr then Exec(s, step).texts[a] == Clip(step.buf, step.count)
              else a in s.texts && Exec(s, step).texts[a] == s.texts[a]
  {
  }

  /** The text of a link that somebody owns does not change while it is on the heap. */
  lemma TextKept(s: Sys, step: Step, a: Addr)
    requires Sound(s) && Enabled(s, step) && a in s.texts && a in Held(Sweep(s.slots, s.tasks)) && a in Exec(s, step).texts
    ensures Exec(s, step).texts[a] == s.texts[a]
  {
    if step.Setchos? && Accepted(s, step.buf, step.count) {
      WriteTexts(s, step);
    } else {
      StepTexts(s, step);
    }
  }

  lemma WriteFresh(s: Sys, step: Step)
    requires Sound(s) && AllWindows(s) && step.Setchos? && Enabled(s, step)
    ensures step.addr !in Settled(s).Values
  {
    SettledSwept(s);
    SettledHeld(s);
  }

  /** Texts of owned links do not change when a new link is written. */
  lemma RenderWrite(own: map<TaskId, Addr>, own': map<TaskId, Addr>, g: map<Addr, string>, g': map<Addr, string>,
                    t: TaskId, addr: Addr, text: string)
    requires own.Values <= g.Keys && own'.Values <= g'.Keys && addr !in own.Values
    requires own' == own[t := addr] || own' == own
    requires forall a :: a in g' ==> if a == addr then g'[a] == text else a in g && g'[a] == g[a]
    ensures own' == own[t := addr] ==> Render(own', g') == Render(own, g)[t := text]
    ensures own' == own ==> Render(own', g') == Render(own, g)
  {
    forall u | u in own'
      ensures u in own && (u != t || own' == own) ==> g'[own'[u]] == g[own[u]]
    {
      assert own'[u] in own'.Values;
      if u in own && own'[u] == own[u] {
        assert own[u] in own.Values;
      }
    }
    if own' == own[t := addr] {
      assert own'[t] in own'.Values;
    }
  }

  lemma WriteViewOwn(s: Sys, step: Step)
    requires Inv(s) && step.Setchos? && Legal(s, step) && Inv(Exec(s, step)) && Accepted(s, step.buf, step.count)
    ensures View(Exec(s, step)).own ==
            if step.t == INIT then View(s).own else View(s).own[step.t := Clip(step.buf, step.count)]
  {
    var s' := Exec(s, step);
    SettledHeld(s);
    SettledHeld(s');
    SetchosSettled(s, step);
    WriteTexts(s, step);
    WriteFresh(s, step);
    RenderWrite(Settled(s), Settled(s'), s.texts, s'.texts, step.t, step.addr, Clip(step.buf, step.count));
  }

  /** `m` and the state agree on the tree and the list of valid paths. */
  ghost predicate SameTree(s: Sys, m: Owned) {
    m.up == Up(s.tasks) && m.next == s.next && m.valid == s.valid
  }

  lemma CanErase(s: Sys, step: Step, m: Owned)
    requires Sound(s) && Enabled(s, step) && SameTree(s, m)
    ensures Possible(m, Erase(step))
  {
    CanAct(s, step);
  }

  lemma EraseSeen(s: Sys, step: Step, m: Owned)
    requires Enabled(s, step) && SameTree(s, m)
    requires step.Setchos? ==> !Accepted(s, step.buf, step.count)
    ensures SeenAs(ActOf(s, step), EventAct(m, Erase(step)), s.texts)
  {
  }

  lemma StepOwn(s: Sys, step: Step)
    requires Inv(s) && Legal(s, step) && Inv(Exec(s, step)) && Possible(View(s), Erase(step))
    ensures View(Exec(s, step)).own == SimpleExec(View(s), Erase(step)).own
  {
    if step.Setchos? && Accepted(s, step.buf, step.count) {
      WriteViewOwn(s, step);
    } else {
      CanAct(s, step);
      EraseSeen(s, step, View(s));
      PlainViewOwn(s, step);
    }
  }

  lemma StepRest(s: Sys, step: Step, m: Owned)
    requires Sound(s) && Enabled(s, step) && SameTree(s, m) && Possible(m, Erase(step))
    ensures SameTree(Exec(s, step), SimpleExec(m, Erase(step)))
  {
    CanAct(s, step);
    StepTree(s, step);
    SameKind(s, step, m);
  }

  lemma SameKind(s: Sys, step: Step, m: Owned)
    requires Enabled(s, step) && SameTree(s, m) && Rooted(m.up) && Possible(m, Erase(step))
    requires Can(m.up, m.next, ActOf(s, step))
    ensures UpStep(m.up, m.next, EventAct(m, Erase(step))) == UpStep(m.up, m.next, ActOf(s, step))
    ensures NextStep(m.next, EventAct(m, Erase(step))) == NextStep(m.next, ActOf(s, step))
  {
  }

  lemma ReadReply(s: Sys, t: TaskId)
    requires Sound(s) && AllWindows(s) && t in s.tasks
    ensures match Find(View(s).own, Up(s.tasks), t)
            case None => Resolve(s.slots, s.tasks, t).None?
            case Some(text) =>
              var link := Resolve(s.slots, s.tasks, t);
              link.Some? && link.value in s.texts && s.texts[link.value] == text
  {
    SettledHeld(s);
    SettledAnswers(s, t);
    RenderFind(Settled(s), s.texts, Up(s.tasks), t);
  }

  lemma StepReply(s: Sys, step: Step, m: Owned)
    requires Sound(s) && AllWindows(s) && Enabled(s, step) && SameTree(s, m) && Possible(m, Erase(step))
    requires m == View(s)
    ensures Observe(s, step) == SimpleObserve(m, Erase(step))
  {
    if step.Readlink? {
      ReadReply(s, step.t);
    }
  }

  /** One legal step is one event of the simple machine and answers the same. */
  lemma StepRefines(s: Sys, step: Step)
    requires Inv(s) && Legal(s, step)
    ensures Inv(Exec(s, step)) && Possible(View(s), Erase(step))
    ensures View(Exec(s, step)) == SimpleExec(View(s), Erase(step))
    ensures Observe(s, step) == SimpleObserve(View(s), Erase(step))
  {
    StepKept(s, step);
    CanErase(s, step, View(s));
    StepOwn(s, step);
    StepRest(s, step, View(s));
    StepReply(s, step, View(s));
  }
}

/**
 Every safe run, disturbed or not, answers as a machine that has only tasks and texts - and, for
 each fork under way, the text its parent resolved to when it entered.  A return gives that text,
 or nothing, to whichever task is found; it does not matter what has been freed, allocated again
 or written to the table in between.
 */
module Late {
  import opened Basics
  import opened Ancestry
  import opened Slots
  import opened LinkTable
  import opened Machine
  import opened Effects
  import opened Invariant
  import opened Safety
  import opened Simple
  import opened Refinement
  import opened Runs

  /** The simple machine, and what forks under way owe to the children they bore. */
  datatype Ledger = Ledger(seen: Owned, owed: map<TaskId, Option<string>>)

  datatype Deed =
    | Plain(e: Event)
    | Enters(t: TaskId)
    | Returns(c: TaskId, found: Option<TaskId>)

  function Give<V>(found: Option<TaskId>, v: Option<V>): (act: Act<V>)
  {
    match found
    case None => Idle
    case Some(d) => if v.Some? then Choose(d, v.value) else Forget(d)
  }

  ghost predicate CanDo(m: Ledger, d: Deed) {
    && Rooted(m.seen.up)
    && match d
       case Plain(e) => Possible(m.seen, e)
       case Enters(t) => t in m.seen.up && t < m.seen.next && m.seen.next !in m.seen.up
       case Returns(c, found) => c in m.owed && (found.Some? ==> found.value in m.seen.up)
  }

  ghost function Do(m: Ledger, d: Deed): (r: Ledger)
    requires CanDo(m, d)
  {
    var own, up, next := m.seen.own, m.seen.up, m.seen.next;
    match d
    case Plain(e) => m.(seen := SimpleExec(m.seen, e))
    case Enters(t) =>
      Ledger(Owned(Pin(own, up, t), up[next := t], next + 1, m.seen.valid), m.owed[next := Find(own, up, t)])
    case Returns(c, found) =>
      Ledger(m.seen.(own := OwnStep(own, up, next, Give(found, m.owed[c]))), m.owed - {c})
  }

  ghost function Answer(m: Ledger, d: Deed): (r: Reply)
    requires CanDo(m, d)
  {
    if d.Plain? then SimpleObserve(m.seen, d.e) else Code(0)
  }

  // ----- the view -----

  ghost predicate OnHeap(pend: map<TaskId, Window>, texts: map<Addr, string>) {
    forall c :: c in pend && pend[c].link.Some? ==> pend[c].link.value in texts
  }

  ghost function TextOf(link: Option<Addr>, texts: map<Addr, string>): (r: Option<string>)
    requires link.Some? ==> link.value in texts
  {
    if link.Some? then Some(texts[link.value]) else None
  }

  ghost function Owed(pend: map<TaskId, Window>, texts: map<Addr, string>): (r: map<TaskId, Option<string>>)
    requires OnHeap(pend, texts)
  {
    map c | c in pend :: TextOf(pend[c].link, texts)
  }

  lemma OwnersHeld(s: Sys)
    requires Sound(s)
    ensures Owners(s).Values <= s.texts.Keys && Owners(s).Values <= Held(Sweep(s.slots, s.tasks))
  {
    OwnersSwept(s);
    SweepHeld(s.slots, s.tasks);
  }

  lemma BackedOnHeap(s: Sys)
    requires Sound(s) && Backed(s)
    ensures OnHeap(s.pend, s.texts)
  {
    AnswersHeld(s);
  }

  ghost function Seen(s: Sys): (m: Owned)
    requires Sound(s)
  {
    OwnersHeld(s);
    Owned(Render(Owners(s), s.texts), Up(s.tasks), s.next, s.valid)
  }

  ghost function LedgerOf(s: Sys): (m: Ledger)
    requires Sound(s) && Backed(s)
  {
    BackedOnHeap(s);
    Ledger(Seen(s), Owed(s.pend, s.texts))
  }

  ghost function DeedOf(s: Sys, step: Step): (d: Deed)
    requires Sound(s) && Enabled(s, step)
  {
    match step
    case ForkEnter(t, _, _) => Enters(t)
    case ForkReturn(c) => Returns(c, FindTask(s.tasks, s.pend[c].pid))
    case _ => Plain(Erase(step))
  }

  // ----- the owners -----

  /** What a step does to the slots that are valid now, whatever is still to come. */
  ghost function NowAct(s: Sys, step: Step): (r: Act<Addr>)
    requires Sound(s) && Enabled(s, step)
  {
    match step
    case ForkEnter(t, _, _) => Look(t)
    case ForkReturn(c) => Give(FindTask(s.tasks, s.pend[c].pid), s.pend[c].link)
    case _ => ActOf(s, step)
  }

  lemma ReturnNow(s: Sys, c: TaskId)
    requires Sound(s) && c in s.pend
    ensures Owners(Exec(s, ForkReturn(c))) == OwnStep(Owners(s), Up(s.tasks), s.next, NowAct(s, ForkReturn(c)))
  {
    ReturnOwners(s, c);
    GiveNow(Owners(s), Up(s.tasks), s.next, FindTask(s.tasks, s.pend[c].pid), s.pend[c].link);
  }

  lemma GiveNow(own: map<TaskId, Addr>, up: Parents, next: TaskId, found: Option<TaskId>, link: Option<Addr>)
    requires Rooted(up) && INIT !in own && (found.Some? ==> found.value in up)
    ensures OwnStep(own, up, next, Give(found, link)) ==
            match found
            case None => own
            case Some(d) => if link.Some? && d != INIT then own[d := link.value] else own - {d}
  {
    assert own - {INIT} == own;
  }

  lemma StepNow(s: Sys, step: Step)
    requires Sound(s) && Known(s) && Enabled(s, step) && Can(Up(s.tasks), s.next, NowAct(s, step))
    ensures Owners(Exec(s, step)) == OwnStep(Owners(s), Up(s.tasks), s.next, NowAct(s, step))
  {
    match step
    case Setchos(_, _, buf, count) => if Accepted(s, buf, count) { SetchosOwners(s, step); }
    case Resetchos(t) => ResetchosOwners(s, t);
    case Readlink(t) => ReadlinkOwners(s, t);
    case Fork(t, pid, start) => ForkOwners(s, t, pid, start);
    case Spawn(t, pid, start) => SpawnOwners(s, t, pid, start);
    case ForkEnter(t, pid, start) => ForkEnterOwners(s, t, pid, start);
    case ForkReturn(c) => ReturnNow(s, c);
    case Exit(e, kids) => ExitOwners(s, e, kids);
    case Vanish(e) => VanishOwners(s, e);
    case WriteValid(_, _, _) =>
  }

  lemma CanNow(s: Sys, step: Step)
    requires Sound(s) && Enabled(s, step)
    ensures Can(Up(s.tasks), s.next, NowAct(s, step))
  {
    CanAct(s, step);
  }

  // ----- from addresses to texts -----

  /** The same act on texts. */
  ghost function SeenAct(s: Sys, step: Step): (r: Act<string>)
    requires Sound(s) && Enabled(s, step) && OnHeap(s.pend, s.texts)
  {
    match step
    case ForkEnter(t, _, _) => Look(t)
    case ForkReturn(c) => Give(FindTask(s.tasks, s.pend[c].pid), TextOf(s.pend[c].link, s.texts))
    case _ => EventAct(Seen(s), Erase(step))
  }

  lemma SeenNow(s: Sys, step: Step)
    requires Sound(s) && Enabled(s, step) && OnHeap(s.pend, s.texts)
    requires step.Setchos? ==> !Accepted(s, step.buf, step.count)
    ensures SeenAs(NowAct(s, step), SeenAct(s, step), s.texts)
  {
    if step.ForkReturn? {
      SeenGive(FindTask(s.tasks, s.pend[step.child].pid), s.pend[step.child].link, s.texts);
    } else if !step.ForkEnter? {
      EraseSeen(s, step, Seen(s));
    }
  }

  lemma SeenGive(found: Option<TaskId>, link: Option<Addr>, texts: map<Addr, string>)
    requires link.Some? ==> link.value in texts
    ensures SeenAs(Give(found, link), Give(found, TextOf(link, texts)), texts)
  {
  }

  lemma PlainOwn(s: Sys, step: Step)
    requires Guarded(s) && Enabled(s, step) && Sound(Exec(s, step)) && OnHeap(s.pend, s.texts)
    requires step.Setchos? ==> !Accepted(s, step.buf, step.count)
    ensures Can(Up(s.tasks), s.next, SeenAct(s, step))
    ensures Seen(Exec(s, step)).own == OwnStep(Seen(s).own, Up(s.tasks), s.next, SeenAct(s, step))
  {
    var s' := Exec(s, step);
    OwnersHeld(s);
    OwnersHeld(s');
    CanNow(s, step);
    StepNow(s, step);
    SeenNow(s, step);
    StepTexts(s, step);
    RenderSame(Owners(s'), s.texts, s'.texts);
    RenderStep(Owners(s), s.texts, Up(s.tasks), s.next, NowAct(s, step), SeenAct(s, step));
  }

  lemma WriteOwn(s: Sys, step: Step)
    requires Sound(s) && step.Setchos? && Enabled(s, step) && Accepted(s, step.buf, step.count) && Sound(Exec(s, step))
    ensures Seen(Exec(s, step)).own ==
            if step.t == INIT then Seen(s).own else Seen(s).own[step.t := Clip(step.buf, step.count)]
  {
    var s' := Exec(s, step);
    OwnersHeld(s);
    OwnersHeld(s');
    SetchosOwners(s, step);
    WriteTexts(s, step);
    RenderWrite(Owners(s), Owners(s'), s.texts, s'.texts, step.t, step.addr, Clip(step.buf, step.count));
  }

  // ----- what is owed -----

  lemma OwedSame(pend: map<TaskId, Window>, texts: map<Addr, string>, texts': map<Addr, string>)
    requires OnHeap(pend, texts) && OnHeap(pend, texts')
    requires forall c :: c in pend && pend[c].link.Some? ==> texts'[pend[c].link.value] == texts[pend[c].link.value]
    ensures Owed(pend, texts') == Owed(pend, texts)
  {
  }

  /** While a parent waits, the text it remembers is not touched. */
  lemma OwedTexts(s: Sys, step: Step)
    requires Sound(s) && Backed(s) && Enabled(s, step) && OnHeap(s.pend, s.texts)
    ensures forall c :: c in s.pend && s.pend[c].link.Some? && s.pend[c].link.value in Exec(s, step).texts ==>
              Exec(s, step).texts[s.pend[c].link.value] == s.texts[s.pend[c].link.value]
  {
    OwnersHeld(s);
    forall c | c in s.pend && s.pend[c].link.Some? && s.pend[c].link.value in Exec(s, step).texts
      ensures Exec(s, step).texts[s.pend[c].link.value] == s.texts[s.pend[c].link.value]
    {
      assert Backs(Owners(s), s.tasks, s.pend[c]);
      assert Owners(s)[s.pend[c].parent] in Owners(s).Values;
      TextKept(s, step, s.pend[c].link.value);
    }
  }

  lemma OwedPlain(s: Sys, step: Step)
    requires Sound(s) && Backed(s) && Enabled(s, step) && !step.ForkEnter? && !step.ForkReturn?
    requires Sound(Exec(s, step)) && Backed(Exec(s, step))
    ensures LedgerOf(Exec(s, step)).owed == LedgerOf(s).owed
  {
    BackedOnHeap(s);
    BackedOnHeap(Exec(s, step));
    SamePend(s, step);
    OwedTexts(s, step);
    OwedSame(s.pend, s.texts, Exec(s, step).texts);
  }

  lemma OwedLess(pend: map<TaskId, Window>, texts: map<Addr, string>, texts': map<Addr, string>, c: TaskId)
    requires OnHeap(pend, texts) && OnHeap(pend - {c}, texts')
    requires forall d :: d in pend && pend[d].link.Some? && pend[d].link.value in texts' ==>
               texts'[pend[d].link.value] == texts[pend[d].link.value]
    ensures Owed(pend - {c}, texts') == Owed(pend, texts) - {c}
  {
  }

  lemma OwedReturn(s: Sys, c: TaskId)
    requires Sound(s) && Backed(s) && c in s.pend
    requires Sound(Exec(s, ForkReturn(c))) && Backed(Exec(s, ForkReturn(c)))
    ensures LedgerOf(Exec(s, ForkReturn(c))).owed == LedgerOf(s).owed - {c}
  {
    BackedOnHeap(s);
    BackedOnHeap(Exec(s, ForkReturn(c)));
    OwedTexts(s, ForkReturn(c));
    OwedLess(s.pend, s.texts, Exec(s, ForkReturn(c)).texts, c);
  }

  lemma OwedMore(pend: map<TaskId, Window>, texts: map<Addr, string>, texts': map<Addr, string>, n: TaskId, w: Window)
    requires n !in pend && OnHeap(pend, texts) && OnHeap(pend[n := w], texts') && texts'.Keys <= texts.Keys
    requires forall a :: a in texts' ==> texts'[a] == texts[a]
    ensures w.link.Some? ==> w.link.value in texts
    ensures Owed(pend[n := w], texts') == Owed(pend, texts)[n := TextOf(w.link, texts)]
  {
    assert pend[n := w][n] == w;
    forall c | c in pend && pend[c].link.Some? ensures pend[c].link.value in texts' {
      assert pend[n := w][c] == pend[c];
    }
  }

  lemma OwedEnter(s: Sys, t: TaskId, pid: nat, start: nat)
    requires Sound(s) && Backed(s) && Enabled(s, ForkEnter(t, pid, start))
    requires Sound(Exec(s, ForkEnter(t, pid, start))) && Backed(Exec(s, ForkEnter(t, pid, start)))
    ensures LedgerOf(Exec(s, ForkEnter(t, pid, start))).owed ==
            LedgerOf(s).owed[s.next := Find(Seen(s).own, Up(s.tasks), t)]
  {
    var s' := Exec(s, ForkEnter(t, pid, start));
    BackedOnHeap(s);
    BackedOnHeap(s');
    StepTexts(s, ForkEnter(t, pid, start));
    OwedMore(s.pend, s.texts, s'.texts, s.next, Window(t, Resolve(s.slots, s.tasks, t), pid));
    FindSeen(s, t);
  }

  lemma FindSeen(s: Sys, t: TaskId)
    requires Sound(s) && t in s.tasks
    ensures var link := Resolve(s.slots, s.tasks, t);
            (link.Some? ==> link.value in s.texts) && Find(Seen(s).own, Up(s.tasks), t) == TextOf(link, s.texts)
  {
    OwnersHeld(s);
    ResolveIsFind(s.slots, s.tasks, t);
    RenderFind(Owners(s), s.texts, Up(s.tasks), t);
  }

  // ----- one step -----

  lemma CanDeed(s: Sys, step: Step)
    requires Sound(s) && Backed(s) && Enabled(s, step)
    ensures CanDo(LedgerOf(s), DeedOf(s, step))
  {
    if !step.ForkEnter? && !step.ForkReturn? {
      CanErase(s, step, Seen(s));
    }
  }

  lemma EnterDeed(s: Sys, t: TaskId, pid: nat, start: nat)
    requires Guarded(s) && Enabled(s, ForkEnter(t, pid, start)) && CanDo(LedgerOf(s), Enters(t))
    requires Sound(Exec(s, ForkEnter(t, pid, start))) && Backed(Exec(s, ForkEnter(t, pid, start)))
    ensures LedgerOf(Exec(s, ForkEnter(t, pid, start))) == Do(LedgerOf(s), Enters(t))
  {
    BackedOnHeap(s);
    PlainOwn(s, ForkEnter(t, pid, start));
    OwedEnter(s, t, pid, start);
    BearTree(s, ForkEnter(t, pid, start));
  }

  lemma ReturnDeed(s: Sys, c: TaskId)
    requires Guarded(s) && c in s.pend && CanDo(LedgerOf(s), DeedOf(s, ForkReturn(c)))
    requires Sound(Exec(s, ForkReturn(c))) && Backed(Exec(s, ForkReturn(c)))
    ensures LedgerOf(Exec(s, ForkReturn(c))) == Do(LedgerOf(s), DeedOf(s, ForkReturn(c)))
  {
    BackedOnHeap(s);
    PlainOwn(s, ForkReturn(c));
    OwedReturn(s, c);
    OtherTree(s, ForkReturn(c));
  }

  lemma PlainSeen(s: Sys, step: Step)
    requires Guarded(s) && Enabled(s, step) && !step.ForkEnter? && !step.ForkReturn? && Possible(Seen(s), Erase(step))
    requires Sound(Exec(s, step)) && OnHeap(s.pend, s.texts)
    ensures Seen(Exec(s, step)).own == SimpleExec(Seen(s), Erase(step)).own
  {
    if step.Setchos? && Accepted(s, step.buf, step.count) {
      WriteOwn(s, step);
    } else {
      PlainOwn(s, step);
    }
  }

  lemma PlainDeed(s: Sys, step: Step)
    requires Guarded(s) && Enabled(s, step) && !step.ForkEnter? && !step.ForkReturn?
    requires CanDo(LedgerOf(s), DeedOf(s, step)) && Sound(Exec(s, step)) && Backed(Exec(s, step))
    ensures LedgerOf(Exec(s, step)) == Do(LedgerOf(s), DeedOf(s, step))
  {
    BackedOnHeap(s);
    PlainSeen(s, step);
    StepRest(s, step, Seen(s));
    OwedPlain(s, step);
  }

  lemma DeedReply(s: Sys, step: Step)
    requires Sound(s) && Backed(s) && Enabled(s, step) && CanDo(LedgerOf(s), DeedOf(s, step))
    ensures Observe(s, step) == Answer(LedgerOf(s), DeedOf(s, step))
  {
    if step.Readlink? {
      FindSeen(s, step.t);
    }
  }

  /** One safe step is one deed of the machine with debts and answers the same. */
  lemma StepLate(s: Sys, step: Step)
    requires Guarded(s) && Safe(s, step)
    ensures Guarded(Exec(s, step)) && CanDo(LedgerOf(s), DeedOf(s, step))
    ensures LedgerOf(Exec(s, step)) == Do(LedgerOf(s), DeedOf(s, step))
    ensures Observe(s, step) == Answer(LedgerOf(s), DeedOf(s, step))
  {
    SafeKept(s, step);
    StepKnown(s, step);
    CanDeed(s, step);
    DeedReply(s, step);
    if step.ForkEnter? {
      EnterDeed(s, step.t, step.pid, step.start);
    } else if step.ForkReturn? {
      ReturnDeed(s, step.child);
    } else {
      PlainDeed(s, step);
    }
  }

  // ----- whole runs -----

  ghost function Deeds(s: Sys, steps: seq<Step>): (r: seq<Deed>)
    requires EnabledRun(s, steps)
    ensures |r| == |steps|
    decreases |steps|
  {
    if steps == [] then []
    else
      var n := |steps| - 1;
      Deeds(s, steps[..n]) + [DeedOf(Run(s, steps[..n]), steps[n])]
  }

  ghost predicate CanDoAll(m: Ledger, deeds: seq<Deed>)
    decreases |deeds|, 0
  {
    if deeds == [] then true
    else
      var n := |deeds| - 1;
      CanDoAll(m, deeds[..n]) && CanDo(DoAll(m, deeds[..n]), deeds[n])
  }

  ghost function DoAll(m: Ledger, deeds: seq<Deed>): (r: Ledger)
    requires CanDoAll(m, deeds)
    decreases |deeds|, 1
  {
    if deeds == [] then m
    else
      var n := |deeds| - 1;
      Do(DoAll(m, deeds[..n]), deeds[n])
  }

  ghost function Answers(m: Ledger, deeds: seq<Deed>): (r: seq<Reply>)
    requires CanDoAll(m, deeds)
    decreases |deeds|
  {
    if deeds == [] then []
    else
      var n := |deeds| - 1;
      Answers(m, deeds[..n]) + [Answer(DoAll(m, deeds[..n]), deeds[n])]
  }

  /**
   Refinement without conditions on what happens inside windows.  Over every safe run the replies
   of the kernel module are those of the machine with debts.
   */
  lemma {:induction false} RunLate(s: Sys, steps: seq<Step>)
    requires Guarded(s) && SafeRun(s, steps)
    ensures Guarded(Run(s, steps)) && CanDoAll(LedgerOf(s), Deeds(s, steps))
    ensures LedgerOf(Run(s, steps)) == DoAll(LedgerOf(s), Deeds(s, steps))
    ensures Replies(s, steps) == Answers(LedgerOf(s), Deeds(s, steps))
    decreases |steps|
  {
    if steps != [] {
      var n := |steps| - 1;
      RunLate(s, steps[..n]);
      StepLate(Run(s, steps[..n]), steps[n]);
      assert Deeds(s, steps)[..n] == Deeds(s, steps[..n]);
    }
  }
}

/**
 Concrete states in which the module fails, one for each condition that `ReturnBackedIff`,
 `ReturnInvisibleIff`, `BareExitIff` and `SpawnAnswersIff` state for all states.
 */
module Failures {
  import opened Basics
  import opened Ancestry
  import opened Slots
  import opened LinkTable
  import opened Machine
  import opened Invariant
  import opened Safety
  import opened Runs
  import opened History

  /** init; task 1 (pid 2) with link 7; its child 2 (pid 3), whose fork has not returned. */
  ghost function InWindow(): Sys
  {
    Sys([EMPTY, EMPTY, Slot(Some(7), 5), EMPTY, EMPTY], map[7 := "/a"],
        map[0 := Task(1, 0, 0), 1 := Task(2, 5, 0), 2 := Task(3, 6, 1)], 3, ["/b"],
        map[2 := Window(1, Some(7), 3)], {(1, 0), (2, 5), (3, 6)})
  }

  lemma InWindowHeld()
    ensures Held(InWindow().slots) == {7}
  {
    assert InWindow().slots[2].link == Some(7);
  }

  lemma InWindowForest()
    ensures WellFormed(InWindow().tasks, 5)
  {
    var f := InWindow().tasks;
    assert forall t :: t in f ==> t == 0 || t == 1 || t == 2;
    assert f[0].pid == 1 && f[1].pid == 2 && f[2].pid == 3;
    assert Father(f, 1) == 0 && Father(f, 2) == 1;
  }

  lemma InWindowSound()
    ensures Sound(InWindow())
  {
    InWindowForest();
    InWindowHeld();
  }

  lemma InWindowKnown()
    ensures Known(InWindow()) && Awaited(InWindow())
  {
    var s := InWindow();
    assert forall t :: t in s.tasks ==> t == 0 || t == 1 || t == 2;
    assert s.slots[2] == Slot(Some(7), 5);
  }

  lemma InWindowWindow()
    requires WellFormed(InWindow().tasks, 5)
    ensures AllWindows(InWindow())
  {
    var s := InWindow();
    var own, up := Owners(s), Up(s.tasks);
    assert s.tasks[1] == Task(2, 5, 0) && Cached(s.slots, s.tasks[1]);
    assert 1 in own && own[1] == 7 && Find(own, up, 1) == Some(7);
    assert s.tasks[2] == Task(3, 6, 1) && !Cached(s.slots, s.tasks[2]) && 2 !in own;
    assert Parent(up, 2) == 1;
  }

  /** The invariant of undisturbed runs holds here: what goes wrong next is not excluded before. */
  lemma InWindowInv()
    ensures Inv(InWindow())
  {
    InWindowSound();
    InWindowKnown();
    InWindowWindow();
  }

  /** The child chooses "/b" while its fork is under way; the return takes the choice away. */
  lemma ChoiceInWindowIsLost()
    ensures var s, choose := InWindow(), Setchos(2, 8, "/b", 2);
            && Inv(s) && Enabled(s, choose) && Accepted(s, "/b", 2) && !Undisturbed(s, choose)
            && var s1 := Exec(s, choose);
            && Sound(s1) && Resolve(s1.slots, s1.tasks, 2) == Some(8) && Enabled(s1, ForkReturn(2))
            && Resolve(Exec(s1, ForkReturn(2)).slots, s1.tasks, 2) == Some(7)
  {
    InWindowInv();
    ChoiceEnabled();
    SetchosSound(InWindow(), Setchos(2, 8, "/b", 2));
    ChoiceMade();
    ReturnAfterChoice(Exec(InWindow(), Setchos(2, 8, "/b", 2)));
  }

  lemma ReturnAfterChoice(s: Sys)
    requires Sound(s) && s.tasks == InWindow().tasks && s.pend == InWindow().pend
    requires s.slots == [EMPTY, EMPTY, Slot(Some(7), 5), Slot(Some(8), 6), EMPTY]
    ensures Resolve(s.slots, s.tasks, 2) == Some(8)
    ensures Resolve(Exec(s, ForkReturn(2)).slots, s.tasks, 2) == Some(7)
  {
    assert s.tasks[2].pid == 3 && s.tasks[1].pid == 2 && Father(s.tasks, 2) == 1;
    assert FindTask(s.tasks, 3) == Some(2);
    assert Exec(s, ForkReturn(2)).slots == s.slots[3 := Slot(Some(7), 6)];
  }

  lemma ChoiceEnabled()
    requires Sound(InWindow())
    ensures Enabled(InWindow(), Setchos(2, 8, "/b", 2)) && Accepted(InWindow(), "/b", 2)
  {
    assert Clip("/b", 2) == "/b";
    assert 2 !in Busy(InWindow());
    InWindowHeld();
    SweepHeld(InWindow().slots, InWindow().tasks);
  }

  lemma ChoiceMade()
    requires Sound(InWindow()) && Enabled(InWindow(), Setchos(2, 8, "/b", 2)) && Accepted(InWindow(), "/b", 2)
    ensures var s' := Exec(InWindow(), Setchos(2, 8, "/b", 2));
            && s'.slots == [EMPTY, EMPTY, Slot(Some(7), 5), Slot(Some(8), 6), EMPTY]
            && s'.tasks == InWindow().tasks && s'.pend == InWindow().pend && s'.next == 3 && s'.born == InWindow().born
  {
    var s := InWindow();
    assert s.tasks[1].pid == 2;
    assert !Stale(s.slots, s.tasks, 2);
  }

  // ----- a freed link is stored -----

  /** The child has chosen link 8. */
  ghost predicate Chosen(s: Sys) {
    && Sound(s) && s.slots == [EMPTY, EMPTY, Slot(Some(7), 5), Slot(Some(8), 6), EMPTY]
    && s.tasks == InWindow().tasks && s.pend == InWindow().pend && s.next == 3 && s.born == InWindow().born
  }

  /** The child has forked a task 3 (pid 4); neither its own fork nor this one has returned. */
  ghost predicate Nested(s: Sys) {
    && Sound(s) && s.slots == [EMPTY, EMPTY, Slot(Some(7), 5), Slot(Some(8), 6), EMPTY]
    && s.tasks == InWindow().tasks[3 := Task(4, 9, 2)]
    && s.pend == map[2 := Window(1, Some(7), 3), 3 := Window(2, Some(8), 4)]
  }

  lemma EnterEnabled(s: Sys)
    requires Chosen(s)
    ensures Enabled(s, ForkEnter(2, 4, 9))
  {
    var f := s.tasks;
    assert 2 !in Busy(s) && forall t :: t in f ==> t == 0 || t == 1 || t == 2;
    assert PidOf(f, 0) == 1 && PidOf(f, 1) == 2 && PidOf(f, 2) == 3;
  }

  /** The lookup of the second fork finds link 8 in the child's slot. */
  lemma Entered(s: Sys)
    requires Chosen(s) && Enabled(s, ForkEnter(2, 4, 9))
    ensures Nested(Exec(s, ForkEnter(2, 4, 9)))
  {
    assert s.tasks[2] == Task(3, 6, 1) && Cached(s.slots, s.tasks[2]);
    ForkEnterSound(s, 2, 4, 9);
  }

  lemma ReturnedSlots(s: Sys)
    requires Nested(s)
    ensures Exec(s, ForkReturn(2)).slots == [EMPTY, EMPTY, Slot(Some(7), 5), Slot(Some(7), 6), EMPTY]
  {
    assert PidOf(s.tasks, 2) == 3;
    assert FindTask(s.tasks, 3) == Some(2);
  }

  lemma Holds7Only()
    ensures 8 !in Held([EMPTY, EMPTY, Slot(Some(7), 5), Slot(Some(7), 6), EMPTY])
  {
  }

  /** The outer return gives the child link 7: nobody holds link 8 any more. */
  lemma Freed8(s: Sys)
    requires Nested(s)
    ensures var s' := Exec(s, ForkReturn(2));
            && Sound(s') && 8 !in s'.texts && s'.tasks == s.tasks && s'.pend == s.pend - {2}
  {
    assert s.slots[2].link == Some(7);
    ReturnSoundIff(s, 2);
    ReturnedSlots(s);
    Holds7Only();
  }

  /** The inner return stores it all the same. */
  lemma Stored8(s: Sys)
    requires Sound(s) && 8 !in s.texts && s.tasks == InWindow().tasks[3 := Task(4, 9, 2)]
    requires 3 in s.pend && s.pend[3] == Window(2, Some(8), 4)
    ensures !Sound(Exec(s, ForkReturn(3)))
  {
    assert PidOf(s.tasks, 3) == 4;
    ReturnSoundIff(s, 3);
  }

  lemma ClashIn(s: Sys)
    requires Nested(s)
    ensures !ReturnSafe(s, 2)
  {
    assert PidOf(s.tasks, 2) == 3;
    assert Clash(s.tasks, s.pend[2], s.pend[3]);
  }

  /** The return of `d` stores a link that is not on the heap. */
  ghost predicate Dangles(s: Sys, d: TaskId) {
    && Sound(s) && d in s.pend && s.pend[d].link.Some? && s.pend[d].link.value !in s.texts
    && !Sound(Exec(s, ForkReturn(d)))
  }

  /** The return of `c`, which is not safe, frees the link that the return of `d` stores. */
  ghost predicate StoresFreed(s: Sys, c: TaskId, d: TaskId) {
    && Sound(s) && c in s.pend && d in s.pend && s.pend[d].link.Some? && s.pend[d].link.value in s.texts
    && !ReturnSafe(s, c) && Dangles(Exec(s, ForkReturn(c)), d)
  }

  lemma StoredAfter(s: Sys)
    requires Nested(s)
    ensures StoresFreed(s, 2, 3)
  {
    ClashIn(s);
    Freed8(s);
    Stored8(Exec(s, ForkReturn(2)));
    assert s.slots[3].link == Some(8);
  }

  lemma ChosenRun(s: Sys, steps: seq<Step>)
    requires Sound(s) && Backed(s) && SafeRun(s, steps) && Run(s, steps) == InWindow()
    ensures SafeRun(s, steps + [Setchos(2, 8, "/b", 2)]) && Chosen(Run(s, steps + [Setchos(2, 8, "/b", 2)]))
  {
    InWindowSound();
    ChoiceEnabled();
    SetchosSound(InWindow(), Setchos(2, 8, "/b", 2));
    ChoiceMade();
    SafeRunGrows(s, steps, Setchos(2, 8, "/b", 2));
  }

  lemma NestedRun(s: Sys, steps: seq<Step>)
    requires Sound(s) && Backed(s) && SafeRun(s, steps) && Chosen(Run(s, steps))
    ensures SafeRun(s, steps + [ForkEnter(2, 4, 9)]) && Nested(Run(s, steps + [ForkEnter(2, 4, 9)]))
  {
    EnterEnabled(Run(s, steps));
    Entered(Run(s, steps));
    SafeRunGrows(s, steps, ForkEnter(2, 4, 9));
  }

  /**
   A link is stored after it has been freed.  In its own window the child chooses and forks; the
   return of its own fork then frees what the second fork remembers, and the second return
   stores it.  Every step is one the kernel may take, and only the first return is not safe.
   */
  lemma FreedLinkIsStored()
    ensures Inv(InWindow())
    ensures var steps := [] + [Setchos(2, 8, "/b", 2)] + [ForkEnter(2, 4, 9)];
            SafeRun(InWindow(), steps) && StoresFreed(Run(InWindow(), steps), 2, 3)
  {
    InWindowInv();
    InvBacked(InWindow());
    ChosenRun(InWindow(), []);
    NestedRun(InWindow(), [] + [Setchos(2, 8, "/b", 2)]);
    StoredAfter(Run(InWindow(), [] + [Setchos(2, 8, "/b", 2)] + [ForkEnter(2, 4, 9)]));
  }

  /** The same tasks with the fork long returned but the child's slot cleared again. */
  ghost function Uncached(): Sys
  {
    InWindow().(pend := map[])
  }

  /** An exit without the hook: task 2 had the link of its parent and has none afterwards. */
  lemma BareExitLosesLink()
    ensures var s := Uncached();
            && Sound(s) && Enabled(s, Vanish(1)) && WellFormed(Without(s.tasks, 1), |s.slots|)
            && Resolve(s.slots, s.tasks, 2) == Some(7)
            && Resolve(s.slots, Without(s.tasks, 1), 2) == None
  {
    var s := Uncached();
    InWindowSound();
    assert Busy(s) == {};
    WithoutWellFormed(s.tasks, |s.slots|, 1);
    assert Resolve(s.slots, s.tasks, 1) == Some(7);
    assert Without(s.tasks, 1)[2] == Task(3, 6, 0);
    assert Resolve(s.slots, Without(s.tasks, 1), 0) == None;
  }

  /** Only init is left; pid 2 and second 5 come round again, and the dead task's link answers. */
  lemma StaleSlotAnswers()
    ensures var s := InWindow().(pend := map[], tasks := map[0 := Task(1, 0, 0)]);
            && Sound(s) && Bearing(s, 0, 2, 5) && WellFormed(Born(s, 0, 2, 5).tasks, |s.slots|)
            && Resolve(s.slots, s.tasks, 0) == None
            && Resolve(s.slots, Born(s, 0, 2, 5).tasks, 3) == Some(7)
  {
    var s := InWindow().(pend := map[], tasks := map[0 := Task(1, 0, 0)]);
    InWindowHeld();
    SpawnAnswersIff(s, 0, 2, 5);
  }
}

/**
 Where every link came from, what a pid's earlier owner can and cannot leave behind, and
 exactly when the late `set_link` of a fork undoes a newer choice.
 */
module History {
  import opened Basics
  import opened Ancestry
  import opened Slots
  import opened LinkTable
  import opened Machine
  import opened Effects
  import opened Invariant
  import opened Refinement
  import opened Runs
  import opened Tables

  // ----- provenance -----

  /** Step `k` of the run wrote `text` into the link at `a`, and the text was allowed then. */
  ghost predicate WroteAt(s: Sys, steps: seq<Step>, k: nat, a: Addr, text: string) {
    && k < |steps| && EnabledRun(s, steps[..k]) && steps[k].Setchos? && steps[k].addr == a
    && steps[k].count <= |steps[k].buf| && Clip(steps[k].buf, steps[k].count) == text
    && (text == DEFAULT || text in Run(s, steps[..k]).valid)
  }

  lemma WroteEarlier(s: Sys, steps: seq<Step>, n: nat, k: nat, a: Addr, text: string)
    requires n <= |steps| && WroteAt(s, steps[..n], k, a, text)
    ensures WroteAt(s, steps, k, a, text)
  {
    assert steps[..n][..k] == steps[..k] && steps[..n][k] == steps[k];
  }

  lemma WroteNow(s: Sys, steps: seq<Step>, a: Addr)
    requires steps != [] && EnabledRun(s, steps)
    requires var before, step := Run(s, steps[..|steps| - 1]), steps[|steps| - 1];
             step.Setchos? && step.addr == a && Accepted(before, step.buf, step.count) && a in Exec(before, step).texts
    ensures a in Run(s, steps).texts && WroteAt(s, steps, |steps| - 1, a, Run(s, steps).texts[a])
  {
    WriteTexts(Run(s, steps[..|steps| - 1]), steps[|steps| - 1]);
  }

  lemma {:induction false} Provenance(s: Sys, steps: seq<Step>, a: Addr)
    requires s.texts == map[] && EnabledRun(s, steps) && a in Run(s, steps).texts
    ensures exists k :: WroteAt(s, steps, k, a, Run(s, steps).texts[a])
    decreases |steps|
  {
    if steps != [] {
      var n := |steps| - 1;
      var before, step := Run(s, steps[..n]), steps[n];
      if step.Setchos? && Accepted(before, step.buf, step.count) && step.addr == a {
        WroteNow(s, steps, a);
      } else {
        TextOrigin(before, step, a);
        Provenance(s, steps[..n], a);
        var k :| WroteAt(s, steps[..n], k, a, before.texts[a]);
        WroteEarlier(s, steps, n, k, a, before.texts[a]);
      }
    }
  }

  lemma TextOrigin(s: Sys, step: Step, a: Addr)
    requires Sound(s) && Enabled(s, step) && a in Exec(s, step).texts
    requires step.Setchos? && Accepted(s, step.buf, step.count) ==> step.addr != a
    ensures a in s.texts && Exec(s, step).texts[a] == s.texts[a]
  {
    if step.Setchos? && Accepted(s, step.buf, step.count) {
      WriteTexts(s, step);
    } else {
      StepTexts(s, step);
    }
  }

  /**
   History.  Whatever a task reads after any run is "/" or a text that was on the list
   of valid paths when some task wrote it, however often the list was reset since.
   */
  lemma EveryReadWasAllowed(s: Sys, steps: seq<Step>, t: TaskId)
    requires s.texts == map[] && EnabledRun(s, steps)
    requires Sound(Run(s, steps)) && Enabled(Run(s, steps), Readlink(t))
    ensures var text := Observe(Run(s, steps), Readlink(t)).text;
            text == DEFAULT || exists k, a :: WroteAt(s, steps, k, a, text)
  {
    var end := Run(s, steps);
    var link := Resolve(end.slots, end.tasks, t);
    if link.Some? && link.value in end.texts {
      Provenance(s, steps, link.value);
    }
  }

  /** From load to read: whatever is read is "/", or root had listed it, and not emptied the list, before it was written. */
  lemma EveryReadWasListed(s: Sys, steps: seq<Step>, t: TaskId)
    requires s.texts == map[] && s.valid == [] && EnabledRun(s, steps)
    requires Sound(Run(s, steps)) && Enabled(Run(s, steps), Readlink(t))
    ensures var text := Observe(Run(s, steps), Readlink(t)).text;
            text == DEFAULT || exists k :: WrittenWhenListed(steps, k, text)
  {
    EveryReadWasAllowed(s, steps, t);
    var text := Observe(Run(s, steps), Readlink(t)).text;
    if k, a :| WroteAt(s, steps, k, a, text) {
      WroteListed(s, steps, k, a, text);
    }
  }

  /** Step `k` wrote `text` to setchos after root had listed it and before root emptied the list. */
  ghost predicate WrittenWhenListed(steps: seq<Step>, k: nat, text: string) {
    && k < |steps| && steps[k].Setchos? && steps[k].count <= |steps[k].buf|
    && Clip(steps[k].buf, steps[k].count) == text && exists j :: ListedAt(steps[..k], j, text)
  }

  lemma WroteListed(s: Sys, steps: seq<Step>, k: nat, a: Addr, text: string)
    requires WroteAt(s, steps, k, a, text) && s.valid == []
    ensures text == DEFAULT || WrittenWhenListed(steps, k, text)
  {
    ListedIff(s, steps[..k], text);
  }

  // ----- pid reuse -----

  /** With the hook, birth overwrites the slot: a child answers as its parent, whoever had its pid. */
  lemma ForkIgnoresOldSlot(s: Sys, t: TaskId, pid: nat, start: nat)
    requires Sound(s) && Bearing(s, t, pid, start)
    ensures var s' := Exec(s, Fork(t, pid, start));
            Sound(s') && Resolve(s'.slots, s'.tasks, s.next) == Resolve(s.slots, s.tasks, t)
  {
    var s' := Exec(s, Fork(t, pid, start));
    ForkSound(s, t, pid, start);
    ForkOwners(s, t, pid, start);
    BearingUp(s, t, pid, start);
    ResolveIsFind(s.slots, s.tasks, t);
    ResolveIsFind(s'.slots, s'.tasks, s.next);
    ForkFinds(Owners(s), Owners(s'), Up(s.tasks), t, s.next);
  }

  lemma ForkFinds(own: map<TaskId, Addr>, own': map<TaskId, Addr>, up: Parents, t: TaskId, n: TaskId)
    requires Rooted(up) && t in up && n !in up && t < n && n !in own
    requires own' == match Find(own, up, t) case None => Pin(own, up, t) case Some(a) => Pin(own, up, t)[n := a]
    ensures Rooted(up[n := t]) && Find(own', up[n := t], n) == Find(own, up, t)
  {
    BirthRooted(up, n, t);
    if Find(own, up, t).None? {
      assert own' == own;
      BirthElsewhere(own, own', up, n, t, t);
      assert Parent(up[n := t], n) == t;
    }
  }

  /**
   Without the hook a newborn answers as its parent if and only if its slot does not hold a
   different link from an earlier task with the same pid and the same start second.
   */
  lemma SpawnAnswersIff(s: Sys, t: TaskId, pid: nat, start: nat)
    requires Sound(s) && Bearing(s, t, pid, start)
    ensures var s' := Born(s, t, pid, start);
            && WellFormed(s'.tasks, |s.slots|)
            && (Resolve(s.slots, s'.tasks, s.next) == Resolve(s.slots, s.tasks, t) <==>
                !Cached(s.slots, Task(pid, start, t)) || s.slots[pid].link == Resolve(s.slots, s.tasks, t))
  {
    var s' := Born(s, t, pid, start);
    BearingUp(s, t, pid, start);
    BirthResolves(s.slots, s.tasks, s.next, Task(pid, start, t), t);
    assert s'.tasks[s.next] == Task(pid, start, t) && Father(s'.tasks, s.next) == t;
  }

  lemma {:induction false} BirthResolves(slots: seq<Slot>, f: Forest, c: TaskId, k: Task, u: TaskId)
    requires WellFormed(f, |slots|) && WellFormed(Birth(f, c, k), |slots|) && c !in f && u in f
    ensures Resolve(slots, Birth(f, c, k), u) == Resolve(slots, f, u)
    decreases u
  {
    if u != INIT && !Cached(slots, f[u]) {
      assert Father(Birth(f, c, k), u) == Father(f, u);
      BirthResolves(slots, f, c, k, Father(f, u));
    }
  }

  // ----- the late set_link -----

  /** A return that finds `d` under the pid it remembers; usually, but not always, its own child. */
  ghost predicate Returns(s: Sys, c: TaskId, d: TaskId)
    requires Sound(s)
  {
    c in s.pend && FindTask(s.tasks, s.pend[c].pid) == Some(d) && d != INIT
  }

  /** What whoever is found resolves to afterwards: the link, or its parent's answer if there is none. */
  ghost function Given(slots: seq<Slot>, f: Forest, d: TaskId, link: Option<Addr>): (r: Option<Addr>)
    requires WellFormed(f, |slots|) && d in f && d != INIT
  {
    if link.Some? then link else Resolve(slots, f, Father(f, d))
  }

  /**
   A fork's return changes nobody's answer if and only if whoever is found has that link in its
   slot already, or has nothing in its slot and a parent that resolves to it.
   */
  lemma ReturnInvisibleIff(s: Sys, c: TaskId, d: TaskId)
    requires Sound(s) && Returns(s, c, d)
    ensures Exec(s, ForkReturn(c)).tasks == s.tasks
    ensures (forall u :: u in s.tasks ==>
               Resolve(Exec(s, ForkReturn(c)).slots, s.tasks, u) == Resolve(s.slots, s.tasks, u))
       <==> var given := Given(s.slots, s.tasks, d, s.pend[c].link);
            if Cached(s.slots, s.tasks[d]) then s.slots[s.tasks[d].pid].link == given
            else Resolve(s.slots, s.tasks, Father(s.tasks, d)) == given
  {
    var link := s.pend[c].link;
    var after := s.slots[s.tasks[d].pid := Slot(link, s.tasks[d].start)];
    assert Exec(s, ForkReturn(c)).slots == after;
    ReturnAnswers(s.slots, s.tasks, d, link);
    if Resolve(s.slots, s.tasks, d) == Given(s.slots, s.tasks, d, link) {
      forall u | u in s.tasks ensures Resolve(after, s.tasks, u) == Resolve(s.slots, s.tasks, u) {
        ReturnKeeps(s.slots, s.tasks, d, link, u);
      }
    }
  }

  lemma {:induction false} ReturnKeeps(slots: seq<Slot>, f: Forest, d: TaskId, link: Option<Addr>, u: TaskId)
    requires WellFormed(f, |slots|) && d in f && d != INIT && u in f
    requires Resolve(slots, f, d) == Given(slots, f, d, link)
    ensures Resolve(slots[f[d].pid := Slot(link, f[d].start)], f, u) == Resolve(slots, f, u)
    decreases u
  {
    if u == d {
      ReturnAnswers(slots, f, d, link);
    } else if u != INIT {
      assert PidOf(f, u) != PidOf(f, d);
      if !Cached(slots, f[u]) {
        ReturnKeeps(slots, f, d, link, Father(f, u));
      }
    }
  }

  /** Whatever it had chosen, whoever is found gets the link, or its parent's answer. */
  lemma ReturnAnswers(slots: seq<Slot>, f: Forest, d: TaskId, link: Option<Addr>)
    requires WellFormed(f, |slots|) && d in f && d != INIT
    ensures Resolve(slots[f[d].pid := Slot(link, f[d].start)], f, d) == Given(slots, f, d, link)
  {
    if link.None? {
      CompressLocal(slots, f, Father(f, d), d, Slot(link, f[d].start));
    }
  }
}

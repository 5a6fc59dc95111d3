/**
 Slot by slot, link by link and path by path: what each entry point leaves in the table, on the
 heap and in the list of valid paths, said of live tasks, pids and start seconds and not through
 the functions the model computes it with.
 */
module Tables {
  import opened Basics
  import opened Ancestry
  import opened Slots
  import opened LinkTable
  import opened Machine
  import opened Effects
  import opened Runs

  /** Somebody other than `t` has a valid slot with link `a`. */
  ghost predicate KeptByOther(s: Sys, t: TaskId, a: Addr) {
    exists i, u :: 0 <= i < |s.slots| && s.slots[i].link == Some(a) && u != t && Claims(s.slots, s.tasks, u, i)
  }

  // ----- resetchos -----

  /** A slot is filled afterwards if and only if it was, for a live task other than the caller. */
  lemma ResetchosSlot(s: Sys, t: TaskId, i: nat)
    requires Sound(s) && Acting(s, t) && i < |s.slots|
    ensures var slot := Exec(s, Resetchos(t)).slots[i];
            && (slot.link.Some? <==> s.slots[i].link.Some? && exists u :: u != t && Claims(s.slots, s.tasks, u, i))
            && (slot.link.Some? ==> slot == s.slots[i])
  {
    ResetSlot(s.slots, s.tasks, t, i);
    forall u | Claims(s.slots, s.tasks, u, i) ensures (u == t) == (i == s.tasks[t].pid) {
      assert PidOf(s.tasks, u) == i && PidOf(s.tasks, t) == s.tasks[t].pid;
    }
  }

  /** A link survives if and only if some other live task has it in a valid slot, and keeps its text. */
  lemma ResetchosHeap(s: Sys, t: TaskId, a: Addr)
    requires Sound(s) && Acting(s, t)
    ensures var s' := Exec(s, Resetchos(t));
            && (a in s'.texts <==> KeptByOther(s, t, a))
            && (a in s'.texts ==> a in s.texts && s'.texts[a] == s.texts[a])
  {
    var s' := Exec(s, Resetchos(t));
    if a in Held(s'.slots) {
      var i :| 0 <= i < |s'.slots| && s'.slots[i].link == Some(a);
      ResetchosSlot(s, t, i);
      assert s.slots[i].link == Some(a);
    }
    if i, u :| 0 <= i < |s.slots| && s.slots[i].link == Some(a) && u != t && Claims(s.slots, s.tasks, u, i) {
      ResetchosSlot(s, t, i);
      assert s'.slots[i].link == Some(a);
    }
  }

  // ----- setchos -----

  lemma SetchosSlot(s: Sys, step: Step, i: nat)
    requires Sound(s) && step.Setchos? && Enabled(s, step) && Accepted(s, step.buf, step.count) && i < |s.slots|
    ensures var slot := Exec(s, step).slots[i];
            if i == s.tasks[step.t].pid then slot == Slot(Some(step.addr), s.tasks[step.t].start)
            else
              && (slot.link.Some? <==> s.slots[i].link.Some? && exists u :: Claims(s.slots, s.tasks, u, i))
              && (slot.link.Some? ==> slot == s.slots[i])
  {
    if i != s.tasks[step.t].pid && s.slots[i].link.Some? {
      StaleIff(s.slots, s.slots, s.tasks, i);
    }
  }

  /** The heap afterwards: the new link with the written text, and what other live tasks have. */
  lemma SetchosHeap(s: Sys, step: Step, a: Addr)
    requires Sound(s) && step.Setchos? && Enabled(s, step) && Accepted(s, step.buf, step.count)
    ensures var s' := Exec(s, step);
            && step.addr in s'.texts && (a in s'.texts <==> a == step.addr || KeptByOther(s, step.t, a))
            && s'.texts[step.addr] == Clip(step.buf, step.count)
            && (a in s'.texts && a != step.addr ==> a in s.texts && s'.texts[a] == s.texts[a])
  {
    var s', swept := Exec(s, step), Sweep(s.slots, s.tasks);
    var p := s.tasks[step.t].pid;
    SetchosSlot(s, step, p);
    assert s'.slots[p].link == Some(step.addr);
    if a in Held(s'.slots) && a != step.addr {
      var i :| 0 <= i < |s'.slots| && s'.slots[i].link == Some(a);
      SetchosSlot(s, step, i);
      var u :| Claims(s.slots, s.tasks, u, i);
      assert s.slots[i].link == Some(a) && u != step.t;
    }
    if i, u :| 0 <= i < |s.slots| && s.slots[i].link == Some(a) && u != step.t && Claims(s.slots, s.tasks, u, i) {
      assert PidOf(s.tasks, u) == i && PidOf(s.tasks, step.t) == p;
      SetchosSlot(s, step, i);
      assert s'.slots[i].link == Some(a) && !Stale(s.slots, s.tasks, i) && swept[i].link == Some(a);
    }
  }

  // ----- a lookup -----

  /** Slot `i` is that of a task the lookup of `t` passes. */
  ghost predicate OnWalk(s: Sys, t: TaskId, i: nat)
    requires WellFormed(s.tasks, |s.slots|) && t in s.tasks
  {
    exists u :: u in s.tasks && u in Walk(Owners(s), Up(s.tasks), t) && s.tasks[u].pid == i
  }

  /** A lookup frees exactly the links that only slots on its walk had held. */
  lemma ReadlinkHeap(s: Sys, t: TaskId, a: Addr)
    requires Sound(s) && Acting(s, t)
    ensures var s' := Exec(s, Readlink(t));
            && (a in s'.texts <==> exists i :: 0 <= i < |s.slots| && s.slots[i].link == Some(a) && !OnWalk(s, t, i))
            && (a in s'.texts ==> a in s.texts && s'.texts[a] == s.texts[a])
  {
    var s' := Exec(s, Readlink(t));
    CompressExact(s.slots, s.tasks, t);
    WalksAreTasks(s.slots, s.tasks, t);
    if i :| 0 <= i < |s.slots| && s.slots[i].link == Some(a) && !OnWalk(s, t, i) {
      assert s'.slots[i] == s.slots[i];
    }
    if a in Held(s'.slots) {
      var i :| 0 <= i < |s'.slots| && s'.slots[i].link == Some(a);
      if OnWalk(s, t, i) {
        AnswerOffWalk(s, t);
      } else {
        assert s'.slots[i] == s.slots[i];
      }
    }
  }

  /** The answer comes from a slot the lookup did not pass. */
  lemma AnswerOffWalk(s: Sys, t: TaskId)
    requires WellFormed(s.tasks, |s.slots|) && t in s.tasks && Resolve(s.slots, s.tasks, t).Some?
    ensures exists i :: 0 <= i < |s.slots| && s.slots[i].link == Resolve(s.slots, s.tasks, t) && !OnWalk(s, t, i)
  {
    var own, up := Owners(s), Up(s.tasks);
    ResolveIsFind(s.slots, s.tasks, t);
    var p := Owner(own, up, t);
    var i := s.tasks[p].pid;
    assert s.slots[i].link == Resolve(s.slots, s.tasks, t);
    forall u | u in s.tasks && u in Walk(own, up, t) ensures s.tasks[u].pid != i {
      WalkAgrees(own, up, t, u);
      assert PidOf(s.tasks, u) == PidOf(s.tasks, p) ==> u == p;
    }
  }

  lemma {:induction false} Owner(own: map<TaskId, Addr>, up: Parents, t: TaskId) returns (p: TaskId)
    requires Rooted(up) && t in up && Find(own, up, t).Some?
    ensures p in own && p in up && Some(own[p]) == Find(own, up, t)
    decreases t
  {
    p := t;
    if t !in own {
      p := Owner(own, up, Parent(up, t));
    }
  }

  // ----- a fork -----

  /** The child's slot holds the parent's answer under its own second; every other is as a lookup leaves it. */
  lemma ForkSlot(s: Sys, t: TaskId, pid: nat, start: nat, i: nat)
    requires Sound(s) && Bearing(s, t, pid, start) && i < |s.slots|
    ensures var slot, answer := Exec(s, Fork(t, pid, start)).slots[i], Resolve(s.slots, s.tasks, t);
            if i == pid then slot == Slot(answer, start)
            else if OnWalk(s, t, i) then slot.link == answer else slot == s.slots[i]
  {
    ForkTable(s, t, pid, start);
    CompressExact(s.slots, s.tasks, t);
    WalksAreTasks(s.slots, s.tasks, t);
  }

  // ----- a fork's return -----

  lemma ReturnSlot(s: Sys, c: TaskId, i: nat)
    requires Sound(s) && c in s.pend && i < |s.slots|
    ensures var slot := Exec(s, ForkReturn(c)).slots[i];
            && (forall d :: d in s.tasks && s.tasks[d].pid == i == s.pend[c].pid ==>
                  slot == Slot(s.pend[c].link, s.tasks[d].start))
            && ((forall d :: d in s.tasks && s.tasks[d].pid == i ==> i != s.pend[c].pid) ==> slot == s.slots[i])
  {
    var found := FindTask(s.tasks, s.pend[c].pid);
    forall d | d in s.tasks && s.tasks[d].pid == s.pend[c].pid ensures found == Some(d) {
      assert PidOf(s.tasks, d) == s.pend[c].pid;
      assert found.Some? ==> PidOf(s.tasks, found.value) == s.pend[c].pid;
    }
  }

  // ----- the list of valid paths -----

  /** Root appends one path, or empties the list by a leading '-'; nobody else changes it. */
  lemma ValidList(s: Sys, euid: nat, buf: seq<char>, count: nat)
    requires Sound(s) && Enabled(s, WriteValid(euid, buf, count))
    ensures var valid := Exec(s, WriteValid(euid, buf, count)).valid;
            && (euid != 0 ==> valid == s.valid)
            && (euid == 0 && buf[0] == '-' ==> |valid| == 0)
            && (euid == 0 && buf[0] != '-' ==>
                  && |valid| == |s.valid| + 1 && valid[|s.valid|] == Clip(buf, count)
                  && forall k :: 0 <= k < |s.valid| ==> valid[k] == s.valid[k])
  {
  }

  /** Which writes to setchos are accepted after a write to valid. */
  lemma AcceptedAfterIff(s: Sys, euid: nat, buf: seq<char>, count: nat, w: seq<char>, n: nat)
    requires Sound(s) && Enabled(s, WriteValid(euid, buf, count)) && n <= |w|
    ensures Accepted(Exec(s, WriteValid(euid, buf, count)), w, n) <==>
            || Clip(w, n) == "/"
            || (euid != 0 && Clip(w, n) in s.valid)
            || (euid == 0 && buf[0] != '-' && (Clip(w, n) in s.valid || Clip(w, n) == Clip(buf, count)))
  {
  }

  /** Step `k` is root emptying the list. */
  ghost predicate Empties(step: Step) {
    step.WriteValid? && step.euid == 0 && step.buf != [] && step.buf[0] == '-'
  }

  ghost predicate Lists(step: Step, path: string) {
    && step.WriteValid? && step.euid == 0 && step.buf != [] && step.buf[0] != '-'
    && step.count <= |step.buf| && Clip(step.buf, step.count) == path
  }

  ghost predicate ListedAt(steps: seq<Step>, k: nat, path: string) {
    k < |steps| && Lists(steps[k], path) && forall j :: k < j < |steps| ==> !Empties(steps[j])
  }

  lemma ValidStep(s: Sys, step: Step, path: string)
    requires Sound(s) && Enabled(s, step)
    ensures path in Exec(s, step).valid <==> !Empties(step) && (path in s.valid || Lists(step, path))
  {
  }

  /**
   The list over whole runs: a path is valid if and only if root wrote it, or it was there at
   the start, and root has not emptied the list since.
   */
  lemma {:induction false} ListedIff(s: Sys, steps: seq<Step>, path: string)
    requires EnabledRun(s, steps)
    ensures path in Run(s, steps).valid <==>
            || (path in s.valid && forall j :: 0 <= j < |steps| ==> !Empties(steps[j]))
            || (exists k :: ListedAt(steps, k, path))
    decreases |steps|
  {
    if steps != [] {
      var n := |steps| - 1;
      ListedIff(s, steps[..n], path);
      ValidStep(Run(s, steps[..n]), steps[n], path);
      ListedLast(steps, path);
      NoneEmpties(steps);
    }
  }

  lemma NoneEmpties(steps: seq<Step>)
    requires steps != []
    ensures var n := |steps| - 1;
            (forall j :: 0 <= j < |steps| ==> !Empties(steps[j])) <==>
            (!Empties(steps[n]) && forall j :: 0 <= j < n ==> !Empties(steps[..n][j]))
  {
    var n := |steps| - 1;
    forall j | 0 <= j < n ensures steps[..n][j] == steps[j] {
    }
  }

  lemma ListedLast(steps: seq<Step>, path: string)
    requires steps != []
    ensures var n := |steps| - 1;
            (exists k :: ListedAt(steps, k, path)) <==>
            Lists(steps[n], path) || (!Empties(steps[n]) && exists k :: ListedAt(steps[..n], k, path))
  {
    var n := |steps| - 1;
    if k: nat :| ListedAt(steps, k, path) && k < n {
      assert ListedAt(steps[..n], k, path);
    }
    if Lists(steps[n], path) {
      assert ListedAt(steps, n, path);
    }
    if !Empties(steps[n]) {
      if k: nat :| ListedAt(steps[..n], k, path) {
        assert ListedAt(steps, k, path);
      }
    }
  }
}

/**
 The link table as a value: one slot per pid, each holding a link and the start second
 of whoever it was written for, read against the kernel's list of live tasks.
 The functions say what each table operation of kernel/chos_lkm.c does to the slots;
 the lemmas say what that means for the tree of live tasks.
 */
module Slots {
  import opened Basics
  import opened Ancestry

  /** The address of a link on the kernel heap. */
  type Addr = nat

  datatype Slot = Slot(link: Option<Addr>, start: nat)

  /** A slot as `reset_link` leaves it. */
  const EMPTY: Slot := Slot(None, 0)

  datatype Task = Task(pid: nat, start: nat, parent: TaskId)

  type Forest = map<TaskId, Task>

  function Father(f: Forest, t: TaskId): TaskId
    requires t in f
  {
    f[t].parent
  }

  ghost function Up(f: Forest): (up: Parents)
  {
    map t | t in f :: Father(f, t)
  }

  /** Live tasks have distinct pids inside the table, and older live parents. */
  ghost predicate WellFormed(f: Forest, max: nat)
    ensures WellFormed(f, max) ==> Rooted(Up(f))
  {
    && INIT in f && f[INIT].pid == 1
    && (forall t {:trigger f[t].pid} :: t in f ==> 1 <= f[t].pid < max && (f[t].pid == 1 ==> t == INIT))
    && DistinctPids(f)
    && (forall t {:trigger Father(f, t)} :: t in f && t != INIT ==> Father(f, t) in f && Father(f, t) < t)
  }

  predicate Cached(slots: seq<Slot>, k: Task)
    requires k.pid < |slots|
  {
    slots[k.pid].link.Some? && slots[k.pid].start == k.start
  }

  function PidOf(f: Forest, t: TaskId): nat
    requires t in f
  {
    f[t].pid
  }

  predicate DistinctPids(f: Forest) {
    forall t, u {:trigger PidOf(f, t), PidOf(f, u)} :: t in f && u in f && PidOf(f, t) == PidOf(f, u) ==> t == u
  }

  /** find_task_by_pid */
  function FindTask(f: Forest, pid: nat): (r: Option<TaskId>)
    requires DistinctPids(f)
    ensures r.Some? ==> r.value in f && f[r.value].pid == pid
    ensures r.None? ==> forall t :: t in f ==> PidOf(f, t) != pid
  {
    if exists t :: t in f && PidOf(f, t) == pid then
      var t :| t in f && PidOf(f, t) == pid;
      Some(t)
    else None
  }

  /** The specification of a lookup: the nearest valid slot up the tree. */
  ghost function Resolve(slots: seq<Slot>, f: Forest, t: TaskId): (r: Option<Addr>)
    requires WellFormed(f, |slots|) && t in f
    decreases t
  {
    if f[t].pid <= 1 then None
    else if Cached(slots, f[t]) then slots[f[t].pid].link
    else Resolve(slots, f, Father(f, t))
  }

  /** The slots after a lookup of `t` wrote its answer into every slot it passed. */
  ghost function Compress(slots: seq<Slot>, f: Forest, t: TaskId): (r: seq<Slot>)
    requires WellFormed(f, |slots|) && t in f
    ensures |r| == |slots|
    decreases t
  {
    if f[t].pid <= 1 || Cached(slots, f[t]) then slots
    else
      var answer := Resolve(slots, f, t);
      Compress(slots, f, Father(f, t))[f[t].pid := if answer.Some? then Slot(answer, f[t].start) else EMPTY]
  }

  ghost function CompressAll(slots: seq<Slot>, f: Forest, kids: seq<TaskId>): (r: seq<Slot>)
    requires WellFormed(f, |slots|) && forall k :: k in kids ==> k in f
    ensures |r| == |slots|
    decreases |kids|
  {
    if kids == [] then slots else CompressAll(Compress(slots, f, kids[0]), f, kids[1..])
  }

  /** A slot with a link that no live task can claim. */
  ghost predicate Stale(slots: seq<Slot>, f: Forest, i: nat)
    requires i < |slots|
  {
    slots[i].link.Some? && forall t :: t in f && f[t].pid == i ==> f[t].start != slots[i].start
  }

  /** The slots after `cleanup_links`. */
  ghost function Sweep(slots: seq<Slot>, f: Forest): (r: seq<Slot>)
    ensures |r| == |slots|
  {
    seq(|slots|, i requires 0 <= i < |slots| => if Stale(slots, f, i) then EMPTY else slots[i])
  }

  ghost function Held(slots: seq<Slot>): (r: set<Addr>)
    ensures forall i :: 0 <= i < |slots| && slots[i].link.Some? ==> slots[i].link.value in r
    ensures forall a :: a in r ==> exists i :: 0 <= i < |slots| && slots[i].link == Some(a)
  {
    set i | 0 <= i < |slots| && slots[i].link.Some? :: slots[i].link.value
  }

  /** The links that survive when exactly the unheld ones are freed. */
  ghost function Retain<T>(slots: seq<Slot>, heap: map<Addr, T>): (r: map<Addr, T>)
    ensures r.Keys == heap.Keys * Held(slots)
  {
    map a | a in heap && a in Held(slots) :: heap[a]
  }

  /** The live tasks with a valid slot, and the link there. */
  ghost function Own(slots: seq<Slot>, f: Forest): (r: map<TaskId, Addr>)
  {
    map t | t in f && t != INIT && f[t].pid < |slots| && Cached(slots, f[t]) :: slots[f[t].pid].link.value
  }

  /** Who each task's parent is when `c` has just been born. */
  function Birth(f: Forest, c: TaskId, k: Task): (r: Forest)
    ensures r.Keys == f.Keys + {c}
  {
    f[c := k]
  }

  /** The live tasks after `e` has exited. */
  function Without(f: Forest, e: TaskId): (r: Forest)
    ensures r.Keys == f.Keys - {e}
  {
    map t | t in f && t != e :: if Father(f, t) == e then f[t].(parent := INIT) else f[t]
  }

  // ----- what the operations mean for the tree -----

  lemma {:induction false} ResolveIsFind(slots: seq<Slot>, f: Forest, t: TaskId)
    requires WellFormed(f, |slots|) && t in f
    ensures Resolve(slots, f, t) == Find(Own(slots, f), Up(f), t)
    decreases t
  {
    if t != INIT && !Cached(slots, f[t]) {
      ResolveIsFind(slots, f, Father(f, t));
    }
  }

  lemma SameMap<K, V>(m: map<K, V>, n: map<K, V>)
    requires forall k :: k in m <==> k in n
    requires forall k :: k in m && k in n ==> m[k] == n[k]
    ensures m == n
  {
  }

  lemma OwnSet(slots: seq<Slot>, f: Forest, t: TaskId, link: Option<Addr>, start: nat)
    requires WellFormed(f, |slots|) && t in f && (link.Some? ==> start == f[t].start)
    ensures Own(slots[f[t].pid := Slot(link, start)], f) ==
            if link.Some? && t != INIT then Own(slots, f)[t := link.value] else Own(slots, f) - {t}
  {
    var before, after := Own(slots, f), Own(slots[f[t].pid := Slot(link, start)], f);
    var want := if link.Some? && t != INIT then before[t := link.value] else before - {t};
    forall u
      ensures (u in after) == (u in want) && (u in after ==> after[u] == want[u])
    {
      if u in f && u != t {
        assert PidOf(f, u) != PidOf(f, t);
      }
    }
    SameMap(after, want);
  }

  lemma OwnSweep(slots: seq<Slot>, f: Forest)
    requires WellFormed(f, |slots|)
    ensures Own(Sweep(slots, f), f) == Own(slots, f)
  {
    forall t | t in f
      ensures Cached(Sweep(slots, f), f[t]) == Cached(slots, f[t])
      ensures Cached(slots, f[t]) ==> Sweep(slots, f)[f[t].pid] == slots[f[t].pid]
    {
    }
  }

  lemma {:induction false} OwnCompress(slots: seq<Slot>, f: Forest, t: TaskId)
    requires WellFormed(f, |slots|) && t in f
    ensures Own(Compress(slots, f, t), f) == Pin(Own(slots, f), Up(f), t)
    decreases t
  {
    if t == INIT || Cached(slots, f[t]) {
      assert Walk(Own(slots, f), Up(f), t) == {};
    } else {
      var up := Father(f, t);
      OwnCompress(slots, f, up);
      ResolveIsFind(slots, f, t);
      ResolveIsFind(slots, f, up);
      PinStep(Own(slots, f), Up(f), t);
      var answer := Resolve(slots, f, t);
      var before := Compress(slots, f, up);
      OwnSet(before, f, t, answer, if answer.Some? then f[t].start else 0);
    }
  }

  lemma {:induction false} OwnCompressAll(slots: seq<Slot>, f: Forest, kids: seq<TaskId>)
    requires WellFormed(f, |slots|) && forall k :: k in kids ==> k in f
    ensures Own(CompressAll(slots, f, kids), f) == PinAll(Own(slots, f), Up(f), kids)
    decreases |kids|
  {
    if kids != [] {
      OwnCompress(slots, f, kids[0]);
      OwnCompressAll(Compress(slots, f, kids[0]), f, kids[1..]);
    }
  }

  lemma WithoutWellFormed(f: Forest, max: nat, e: TaskId)
    requires WellFormed(f, max) && e in f && e != INIT
    ensures WellFormed(Without(f, e), max)
  {
    var g := Without(f, e);
    forall t, u | t in g && u in g && PidOf(g, t) == PidOf(g, u) ensures t == u {
      assert PidOf(f, t) == PidOf(f, u);
    }
    forall t | t in g && t != INIT ensures Father(g, t) in g && Father(g, t) < t {
      assert Father(f, t) in f;
    }
  }

  lemma WithoutUp(f: Forest, e: TaskId)
    requires Rooted(Up(f)) && e in f && e != INIT
    ensures Up(Without(f, e)) == Reparent(Up(f), e)
  {
    var g, up := Without(f, e), Reparent(Up(f), e);
    forall t ensures (t in Up(g)) == (t in up) && (t in up ==> Up(g)[t] == up[t]) {
    }
    SameMap(Up(g), up);
  }

  lemma WithoutOwn(slots: seq<Slot>, f: Forest, e: TaskId)
    ensures Own(slots, Without(f, e)) == Own(slots, f) - {e}
  {
    var own, want := Own(slots, Without(f, e)), Own(slots, f) - {e};
    forall t ensures (t in own) == (t in want) && (t in own ==> own[t] == want[t]) {
    }
    SameMap(own, want);
  }

  ghost predicate CanBeBorn(f: Forest, max: nat, c: TaskId, k: Task) {
    && c !in f && k.parent in f && k.parent < c
    && 1 < k.pid < max && forall t :: t in f ==> PidOf(f, t) != k.pid
  }

  lemma BirthWellFormed(f: Forest, max: nat, c: TaskId, k: Task)
    requires WellFormed(f, max) && CanBeBorn(f, max, c, k)
    ensures WellFormed(Birth(f, c, k), max)
  {
    var g := Birth(f, c, k);
    forall t | t in g && t != INIT ensures Father(g, t) in g && Father(g, t) < t {
      assert t != c ==> Father(f, t) == Father(g, t);
    }
    forall t, u | t in g && u in g && PidOf(g, t) == PidOf(g, u) ensures t == u {
      assert t != c ==> PidOf(f, t) == PidOf(g, t) != k.pid;
      assert u != c ==> PidOf(f, u) == PidOf(g, u) != k.pid;
    }
  }

  lemma BirthUp(f: Forest, c: TaskId, k: Task)
    ensures Up(Birth(f, c, k)) == Up(f)[c := k.parent]
  {
    SameMap(Up(Birth(f, c, k)), Up(f)[c := k.parent]);
  }

  /** A newborn owns its slot only if the slot already matches its pid and second. */
  lemma BirthOwn(slots: seq<Slot>, f: Forest, c: TaskId, k: Task)
    requires c !in f && c != INIT && k.pid < |slots|
    ensures Own(slots, Birth(f, c, k)) ==
            if Cached(slots, k) then Own(slots, f)[c := slots[k.pid].link.value] else Own(slots, f)
  {
    var own := Own(slots, Birth(f, c, k));
    var want := if Cached(slots, k) then Own(slots, f)[c := slots[k.pid].link.value] else Own(slots, f);
    forall t ensures (t in own) == (t in want) && (t in own ==> own[t] == want[t]) {
    }
    SameMap(own, want);
  }

  /** Path compression is invisible in the table: no live task's answer changes. */
  lemma CompressInvisible(slots: seq<Slot>, f: Forest, t: TaskId, u: TaskId)
    requires WellFormed(f, |slots|) && t in f && u in f
    ensures Resolve(Compress(slots, f, t), f, u) == Resolve(slots, f, u)
  {
    OwnCompress(slots, f, t);
    ResolveIsFind(slots, f, u);
    ResolveIsFind(Compress(slots, f, t), f, u);
    PinInvisible(Own(slots, f), Up(f), t, u);
  }

  /** Slot by slot: what a lookup may have done to each entry of the table. */
  lemma {:induction false} CompressShape(slots: seq<Slot>, f: Forest, t: TaskId, i: nat)
    requires WellFormed(f, |slots|) && t in f && i < |slots|
    ensures var s := Compress(slots, f, t)[i];
            || s == slots[i]
            || (s == EMPTY && Resolve(slots, f, t).None?)
            || (s.link == Resolve(slots, f, t) && s.link.Some? &&
                exists u :: u in f && f[u] == Task(i, s.start, f[u].parent))
    decreases t
  {
    if f[t].pid > 1 && !Cached(slots, f[t]) {
      if i == f[t].pid {
        assert f[t] == Task(i, f[t].start, Father(f, t));
      } else {
        CompressShape(slots, f, Father(f, t), i);
      }
    }
  }

  /** A lookup writes its answer, or clears the slot, for exactly the tasks on its walk. */
  lemma {:induction false} CompressExact(slots: seq<Slot>, f: Forest, t: TaskId)
    requires WellFormed(f, |slots|) && t in f
    ensures forall u :: u in Walk(Own(slots, f), Up(f), t) ==>
              u in f && Compress(slots, f, t)[f[u].pid] ==
                if Resolve(slots, f, t).Some? then Slot(Resolve(slots, f, t), f[u].start) else Slot(None, 0)
    ensures forall i :: 0 <= i < |slots| && (forall u :: u in Walk(Own(slots, f), Up(f), t) ==> f[u].pid != i) ==>
              Compress(slots, f, t)[i] == slots[i]
    decreases t
  {
    var own, up := Own(slots, f), Up(f);
    if t != INIT && t !in own {
      var p := Father(f, t);
      CompressExact(slots, f, p);
      assert Walk(own, up, t) == {t} + Walk(own, up, p);
      forall u | u in Walk(own, up, p) ensures u in f && PidOf(f, u) != PidOf(f, t) {
        WalkAgrees(own, up, p, u);
        WalkBelow(own, up, p, u);
      }
    }
  }

  /** `u` is on the walk of one of the `kids`. */
  ghost predicate Passed(slots: seq<Slot>, f: Forest, kids: seq<TaskId>, u: TaskId)
    requires WellFormed(f, |slots|) && forall k :: k in kids ==> k in f
  {
    exists k :: k in kids && u in Walk(Own(slots, f), Up(f), k)
  }

  /** Successive lookups leave in each slot what one lookup of its own task would, and touch no other. */
  lemma {:induction false} CompressAllExact(slots: seq<Slot>, f: Forest, kids: seq<TaskId>, i: nat)
    requires WellFormed(f, |slots|) && (forall k :: k in kids ==> k in f) && i < |slots|
    ensures forall u :: u in f && f[u].pid == i && Passed(slots, f, kids, u) ==>
              CompressAll(slots, f, kids)[i] ==
                if Resolve(slots, f, u).Some? then Slot(Resolve(slots, f, u), f[u].start) else Slot(None, 0)
    ensures (forall u :: u in f && f[u].pid == i ==> !Passed(slots, f, kids, u)) ==>
              CompressAll(slots, f, kids)[i] == slots[i]
    decreases |kids|
  {
    if kids != [] {
      var slots1 := Compress(slots, f, kids[0]);
      CompressAllExact(slots1, f, kids[1..], i);
      CompressExact(slots, f, kids[0]);
      WalksAreTasks(slots, f, kids[0]);
      forall u | u in f && f[u].pid == i
        ensures Resolve(slots1, f, u) == Resolve(slots, f, u)
        ensures Passed(slots, f, kids, u) <==>
                u in Walk(Own(slots, f), Up(f), kids[0]) || Passed(slots1, f, kids[1..], u)
        ensures u in Walk(Own(slots, f), Up(f), kids[0]) ==> Resolve(slots, f, u) == Resolve(slots, f, kids[0])
        ensures forall v :: v in f && f[v].pid == i ==> v == u
      {
        CompressInvisible(slots, f, kids[0], u);
        PassedStep(slots, f, kids, u);
        WalkResolves(slots, f, kids[0], u);
        forall v | v in f && f[v].pid == i ensures v == u {
          assert PidOf(f, u) == PidOf(f, v);
        }
      }
    }
  }

  lemma WalksAreTasks(slots: seq<Slot>, f: Forest, t: TaskId)
    requires WellFormed(f, |slots|) && t in f
    ensures forall u :: u in Walk(Own(slots, f), Up(f), t) ==> u in f
  {
    forall u | u in Walk(Own(slots, f), Up(f), t) ensures u in f {
      WalkAgrees(Own(slots, f), Up(f), t, u);
    }
  }

  lemma WalkResolves(slots: seq<Slot>, f: Forest, t: TaskId, u: TaskId)
    requires WellFormed(f, |slots|) && t in f && u in f
    ensures u in Walk(Own(slots, f), Up(f), t) ==> Resolve(slots, f, u) == Resolve(slots, f, t)
  {
    if u in Walk(Own(slots, f), Up(f), t) {
      WalkAgrees(Own(slots, f), Up(f), t, u);
      ResolveIsFind(slots, f, u);
      ResolveIsFind(slots, f, t);
    }
  }

  lemma PassedStep(slots: seq<Slot>, f: Forest, kids: seq<TaskId>, u: TaskId)
    requires WellFormed(f, |slots|) && (forall k :: k in kids ==> k in f) && kids != []
    ensures Passed(slots, f, kids, u) <==>
            u in Walk(Own(slots, f), Up(f), kids[0]) || Passed(Compress(slots, f, kids[0]), f, kids[1..], u)
  {
    var own, up := Own(slots, f), Up(f);
    OwnCompress(slots, f, kids[0]);
    forall k | k in kids[1..]
      ensures u in Walk(Pin(own, up, kids[0]), up, k) ==> u in Walk(own, up, k)
      ensures u in Walk(own, up, k) ==> u in Walk(Pin(own, up, kids[0]), up, k) || u in Walk(own, up, kids[0])
    {
      WalkAfterPin(own, up, kids[0], k, u);
    }
    if k :| k in kids && u in Walk(own, up, k) {
      assert k == kids[0] || k in kids[1..];
    }
    if k :| k in kids[1..] && u in Walk(Pin(own, up, kids[0]), up, k) {
      assert k in kids && u in Walk(own, up, k);
    }
  }

  /** An answer is always a link some slot holds, before and after the lookup. */
  lemma {:induction false} ResolveHeld(slots: seq<Slot>, f: Forest, t: TaskId)
    requires WellFormed(f, |slots|) && t in f && Resolve(slots, f, t).Some?
    ensures Resolve(slots, f, t).value in Held(slots)
    ensures t != INIT && Cached(Compress(slots, f, t), f[t])
    ensures Compress(slots, f, t)[f[t].pid].link == Resolve(slots, f, t)
    decreases t
  {
    if !Cached(slots, f[t]) {
      ResolveHeld(slots, f, Father(f, t));
    }
  }

  lemma CompressHeld(slots: seq<Slot>, f: Forest, t: TaskId)
    requires WellFormed(f, |slots|) && t in f
    ensures Held(Compress(slots, f, t)) <= Held(slots)
  {
    var after := Compress(slots, f, t);
    forall a | a in Held(after) ensures a in Held(slots) {
      var i :| 0 <= i < |after| && after[i].link == Some(a);
      CompressShape(slots, f, t, i);
      if after[i] != slots[i] {
        ResolveHeld(slots, f, t);
      }
    }
  }

  lemma {:induction false} CompressAllHeld(slots: seq<Slot>, f: Forest, kids: seq<TaskId>)
    requires WellFormed(f, |slots|) && forall k :: k in kids ==> k in f
    ensures Held(CompressAll(slots, f, kids)) <= Held(slots)
    decreases |kids|
  {
    if kids != [] {
      CompressHeld(slots, f, kids[0]);
      CompressAllHeld(Compress(slots, f, kids[0]), f, kids[1..]);
    }
  }

  /** A lookup neither reads nor writes the slot of a younger task. */
  lemma {:induction false} CompressLocal(slots: seq<Slot>, f: Forest, t: TaskId, u: TaskId, x: Slot)
    requires WellFormed(f, |slots|) && t in f && u in f && t < u
    ensures Resolve(slots[f[u].pid := x], f, t) == Resolve(slots, f, t)
    ensures Compress(slots[f[u].pid := x], f, t) == Compress(slots, f, t)[f[u].pid := x]
    decreases t
  {
    assert PidOf(f, t) != PidOf(f, u);
    if t != INIT && !Cached(slots, f[t]) {
      CompressLocal(slots, f, Father(f, t), u, x);
    }
  }

  /** Looking up the same task again changes nothing. */
  lemma {:induction false} CompressTwice(slots: seq<Slot>, f: Forest, t: TaskId)
    requires WellFormed(f, |slots|) && t in f
    ensures Compress(Compress(slots, f, t), f, t) == Compress(slots, f, t)
    decreases t
  {
    if Resolve(slots, f, t).Some? {
      ResolveHeld(slots, f, t);
    } else if t != INIT {
      var p := Father(f, t);
      CompressTwice(slots, f, p);
      CompressLocal(Compress(slots, f, p), f, p, t, EMPTY);
      CompressInvisible(slots, f, t, t);
    }
  }
}

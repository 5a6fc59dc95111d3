/**
 The link table of kernel/chos_lkm.c: an array of slots indexed by pid, links with manual
 reference counts on the kernel heap, and the list of valid paths.  The list of live tasks is the
 kernel's and comes in as a value; `addr` is the address the allocator handed out.

 Every method says exactly which slots it leaves behind and that the links still on the
 heap are exactly the ones some slot holds.
 */
module LinkTable {
  import opened Basics
  import opened Ancestry
  import opened CText
  import opened Slots
  import opened RefCounts

  const ENOENT: int := 2
  const EPERM: int := 1
  const DEFAULT: string := "/"

  /** Where a written path ends: at the count, the first newline or the first zero byte. */
  ghost predicate EndsAt(buf: seq<char>, count: nat, i: nat)
    requires count <= |buf|
  {
    && i <= count
    && (forall j :: 0 <= j < i ==> buf[j] != '\n' && buf[j] != NUL)
    && (i < count ==> buf[i] == '\n' || buf[i] == NUL)
  }

  function Clip(buf: seq<char>, count: nat): (r: string)
    requires count <= |buf|
    ensures |r| <= count && r == buf[..|r|] && EndsAt(buf, count, |r|)
  {
    Cut(buf[..count])
  }

  /** The list of valid paths after a write of the first `count` bytes of `buf`. */
  function NewValid(valid: seq<string>, euid: nat, buf: seq<char>, count: nat): seq<string>
    requires 0 < |buf| && count <= |buf|
  {
    if euid != 0 then valid
    else if buf[0] == '-' then []
    else valid + [Clip(buf, count)]
  }

  ghost function AfterSet(slots: seq<Slot>, f: Forest, t: TaskId, addr: Addr): (r: seq<Slot>)
    requires WellFormed(f, |slots|) && t in f
    ensures |r| == |slots|
  {
    Sweep(slots, f)[f[t].pid := Slot(Some(addr), f[t].start)]
  }

  ghost function AfterReset(slots: seq<Slot>, f: Forest, t: TaskId): (r: seq<Slot>)
    requires WellFormed(f, |slots|) && t in f
    ensures |r| == |slots|
  {
    Sweep(slots[f[t].pid := EMPTY], f)
  }

  ghost function AfterFork(slots: seq<Slot>, f: Forest, child: Option<TaskId>, link: Option<Addr>): (r: seq<Slot>)
    requires child.Some? ==> child.value in f && f[child.value].pid < |slots|
    ensures |r| == |slots|
  {
    match child
    case None => slots
    case Some(c) => slots[f[c].pid := Slot(link, f[c].start)]
  }

  class Chos {
    const procs: array<Slot>
    var heap: map<Addr, Link>
    var valid: seq<string>

    ghost function Slots(): (s: seq<Slot>)
      reads this, procs
      ensures |s| == procs.Length
    {
      procs[..]
    }

    ghost predicate Valid()
      reads this, procs
    {
      Exact(Slots(), heap)
    }

    /** init_chos: an empty table with one slot for each pid below `pidMax`. */
    constructor (pidMax: nat)
      ensures Valid() && fresh(procs) && procs.Length == pidMax && valid == []
      ensures forall i :: 0 <= i < pidMax ==> procs[i] == Slot(None, 0xFFFF_FFFF_FFFF_FFFF)
      ensures heap == map[]
    {
      procs := new Slot[pidMax];
      heap, valid := map[], [];
      new;
      for i := 0 to pidMax
        invariant heap == map[] && valid == []
        invariant forall j :: 0 <= j < i ==> procs[j] == Slot(None, 0xFFFF_FFFF_FFFF_FFFF)
      {
        procs[i] := Slot(None, 0xFFFF_FFFF_FFFF_FFFF);
      }
      assert Held(Slots()) == {};
    }

    /** create_link: a link nobody refers to yet. */
    method CreateLink(addr: Addr, text: string)
      requires Counts(Slots(), heap) && addr !in heap
      modifies `heap
      ensures Counts(Slots(), heap) && heap == old(heap)[addr := Link(text, 0)]
      ensures Holders(Slots(), addr) == {}
    {
      heap := heap[addr := Link(text, 0)];
      assert Holders(Slots(), addr) == {};
    }

    /** destroy_link: free a link unless somebody refers to it. */
    method DestroyLink(link: Option<Addr>)
      requires link.Some? ==> link.value in heap
      modifies `heap
      ensures heap == if link.Some? && old(heap)[link.value].count == 0 then old(heap) - {link.value} else old(heap)
    {
      if link.Some? && heap[link.value].count == 0 {
        heap := heap - {link.value};
      }
    }

    /** reset_link: give up one slot; its link is freed exactly when no other slot holds it. */
    method ResetLink(p: nat)
      requires Counts(Slots(), heap) && p < procs.Length
      modifies `heap, procs
      ensures Slots() == old(Slots())[p := EMPTY]
      ensures Counts(Slots(), heap) && SameTexts(old(heap), heap)
      ensures heap.Keys == old(heap.Keys) - Freed(old(Slots()), Slots(), p)
      ensures heap == Dropped(old(Slots()), old(heap), p)
      ensures old(Valid()) ==> Valid()
    {
      ghost var slots0, heap0 := Slots(), heap;
      var link := procs[p].link;
      procs[p] := EMPTY;
      assert Slots() == slots0[p := EMPTY];
      if link.Some? {
        var a := link.value;
        heap := heap[a := heap[a].(count := heap[a].count - 1)];
        if heap[a].count == 0 {
          DestroyLink(link);
          assert heap == heap0 - {a};
        }
      }
      assert heap == Dropped(slots0, heap0, p);
      DroppedOutcome(slots0, heap0, p);
      if Exact(slots0, heap0) {
        DroppedExact(slots0, heap0, p);
      }
    }

    method CountOneMore(link: Option<Addr>)
      requires link.Some? ==> link.value in heap
      modifies `heap
      ensures heap == Taken(old(heap), link)
    {
      if link.Some? {
        heap := heap[link.value := heap[link.value].(count := heap[link.value].count + 1)];
      }
    }

    /** set_link: drop what the slot of `k` holds, then refer to `link` from there. */
    method SetLink(link: Option<Addr>, k: Task)
      requires Counts(Slots(), heap) && k.pid < procs.Length
      requires link.Some? ==> link.value in heap && SafeToSet(Slots(), k.pid, link.value)
      modifies `heap, procs
      ensures Slots() == old(Slots())[k.pid := Slot(link, k.start)]
      ensures Counts(Slots(), heap) && SameTexts(old(heap), heap)
      ensures old(heap.Keys == Held(Slots()) + Added(link)) ==> Valid()
    {
      ghost var slots0, heap0 := Slots(), heap;
      assert link.Some? ==> link.value in Dropped(slots0, heap0, k.pid) by {
        TakenOutcome(slots0, heap0, k.pid, link, k.start);
      }
      if procs[k.pid].link.Some? {
        ResetLink(k.pid);
      }
      assert heap == Dropped(slots0, heap0, k.pid);
      CountOneMore(link);
      procs[k.pid] := Slot(link, k.start);
      assert Slots() == slots0[k.pid := Slot(link, k.start)];
      assert heap == Taken(Dropped(slots0, heap0, k.pid), link);
      TakenOutcome(slots0, heap0, k.pid, link, k.start);
      if heap0.Keys == Held(slots0) + Added(link) {
        TakenExact(slots0, heap0, k.pid, link, k.start);
      }
    }

    /** cleanup_links: clear exactly the slots no live task can claim. */
    method CleanupLinks(f: Forest)
      requires Valid() && DistinctPids(f)
      modifies `heap, procs
      ensures Valid() && SameTexts(old(heap), heap)
      ensures Slots() == Sweep(old(Slots()), f)
    {
      ghost var slots0, swept := Slots(), Sweep(Slots(), f);
      for i := 0 to procs.Length
        invariant Valid() && SameTexts(old(heap), heap)
        invariant Slots()[..i] == swept[..i] && Slots()[i..] == slots0[i..]
      {
        SweepAt(slots0, f, i);
        assert slots0[i..][0] == Slots()[i..][0];
        CleanupSlot(f, i);
      }
    }

    /** One turn of the loop: the slot is cleared if no task has its pid and its start second. */
    method CleanupSlot(f: Forest, i: nat)
      requires Valid() && DistinctPids(f) && i < procs.Length
      modifies `heap, procs
      ensures Valid() && SameTexts(old(heap), heap)
      ensures Slots() == old(Slots())[i := SweptSlot(old(procs[i]), f, i)]
    {
      var t := FindTask(f, i);
      if procs[i].link.Some? && t.None? {
        ResetLink(i);
      } else if procs[i].link.Some? && procs[i].start != f[t.value].start {
        ResetLink(i);
      }
    }

    /** lookup_link: the nearest valid slot up the tree, cached in every slot on the way. */
    method LookupLink(f: Forest, t: Option<TaskId>) returns (link: Option<Addr>)
      requires Valid() && WellFormed(f, procs.Length)
      requires t.Some? ==> t.value in f
      modifies `heap, procs
      ensures Valid() && SameTexts(old(heap), heap)
      ensures t.None? ==> link == None && Slots() == old(Slots())
      ensures t.Some? ==> link == Resolve(old(Slots()), f, t.value)
      ensures t.Some? ==> Slots() == Compress(old(Slots()), f, t.value)
      ensures t.Some? ==> Traced(old(Slots()), Slots(), f, t.value, link)
      decreases if t.None? then 0 else t.value + 1
    {
      if t.None? {
        return None;
      }
      LookupTraced(Slots(), f, t.value);
      var k := f[t.value];
      if k.pid == 0 || k.pid == 1 {
        return None;
      }
      if procs[k.pid].link == None || procs[k.pid].start != k.start {
        ghost var slots0 := Slots();
        assert Father(f, t.value) in f;
        link := LookupLink(f, Some(k.parent));
        assert link == Resolve(slots0, f, t.value);
        if link.Some? {
          ParentHolds(slots0, f, t.value);
          SetLink(link, k);
        } else {
          ResetLink(k.pid);
        }
      } else {
        link := procs[k.pid].link;
      }
    }

    /** link_readlink: the text a task sees, "/" when no ancestor has a link. */
    method LinkReadlink(f: Forest, current: TaskId) returns (text: string)
      requires Valid() && WellFormed(f, procs.Length) && current in f
      modifies `heap, procs
      ensures Valid() && SameTexts(old(heap), heap)
      ensures Slots() == Compress(old(Slots()), f, current)
      ensures var link := Resolve(old(Slots()), f, current);
              text == if link.Some? && link.value in old(heap) then old(heap)[link.value].text else DEFAULT
    {
      ghost var slots0 := Slots();
      var link := LookupLink(f, Some(current));
      if link == None {
        text := DEFAULT;
      } else {
        ResolveHeld(slots0, f, current);
        assert Slots()[f[current].pid].link == link;
        text := heap[link.value].text;
      }
    }

    /** is_valid_path */
    method IsValidPath(path: string) returns (found: bool)
      ensures found <==> path in valid
    {
      var i := 0;
      while i < |valid|
        invariant i <= |valid| && path !in valid[..i]
      {
        if path == valid[i] {
          return true;
        }
        i := i + 1;
      }
      return false;
    }

    /** write_valid: root adds one path, or empties the list with a leading '-'. */
    method WriteValid(euid: nat, buf: seq<char>, count: nat) returns (ret: int)
      requires 0 < |buf| && count <= |buf|
      modifies `valid
      ensures valid == NewValid(old(valid), euid, buf, count)
      ensures euid != 0 ==> valid == old(valid)
      ensures euid == 0 && buf[0] == '-' ==> valid == []
      ensures euid == 0 && buf[0] != '-' ==> valid == old(valid) + [Clip(buf, count)]
      ensures ret == if euid != 0 then -EPERM else count
    {
      if euid != 0 {
        return -EPERM;
      }
      if buf[0] == '-' {
        while valid != []
          decreases |valid|
        {
          valid := valid[1..];
        }
      } else {
        var path := ReadPath(buf, count);
        valid := valid + [path];
      }
      ret := count;
    }

    /** The scan that write_setchos and write_valid share. */
    method ReadPath(buf: seq<char>, count: nat) returns (path: string)
      requires count <= |buf|
      ensures path == Clip(buf, count)
    {
      var i := 0;
      while i < count && buf[i] != '\n' && buf[i] != NUL
        invariant i <= count
        invariant forall j :: 0 <= j < i ==> buf[j] != '\n' && buf[j] != NUL
      {
        i := i + 1;
      }
      path := buf[..i];
      assert EndsAt(buf, count, i);
    }

    /** What both accepting branches of write_setchos do to the table. */
    method GiveLink(f: Forest, current: TaskId, addr: Addr, text: string)
      requires Valid() && WellFormed(f, procs.Length) && current in f
      requires addr !in Retain(Sweep(Slots(), f), heap)
      modifies `heap, procs
      ensures Valid()
      ensures Slots() == AfterSet(old(Slots()), f, current, addr)
      ensures Texts(heap) == Retain(Slots(), Retain(Sweep(old(Slots()), f), Texts(old(heap)))[addr := text])
    {
      ghost var slots0, heap0 := Slots(), heap;
      CleanupLinks(f);
      assert addr !in heap;
      ghost var heap1 := heap;
      CreateLink(addr, text);
      ghost var heap2 := heap;
      SetLink(Some(addr), f[current]);
      assert Texts(heap) == Retain(Slots(), Retain(Sweep(slots0, f), Texts(heap0))[addr := text]) by {
        TextsRetained(heap0, Sweep(slots0, f), heap1);
        TextsCreated(heap1, addr, text);
        TextsRetained(heap2, Slots(), heap);
      }
    }

    /** write_setchos: sweep the table, then give the caller a link of its own. */
    method WriteSetchos(f: Forest, current: TaskId, addr: Addr, buf: seq<char>, count: nat) returns (ret: int)
      requires Valid() && WellFormed(f, procs.Length) && current in f && count <= |buf|
      requires addr !in Retain(Sweep(Slots(), f), heap)
      modifies `heap, procs
      ensures Valid()
      ensures var text := Clip(buf, count);
              if text == DEFAULT || text in valid then
                && ret == count
                && Slots() == AfterSet(old(Slots()), f, current, addr)
                && Texts(heap) == Retain(Slots(), Retain(Sweep(old(Slots()), f), Texts(old(heap)))[addr := text])
              else
                ret == -ENOENT && Slots() == old(Slots()) && heap == old(heap)
    {
      var text := ReadPath(buf, count);
      var root := text == DEFAULT;
      if !root {
        var known := IsValidPath(text);
        if !known {
          return -ENOENT;
        }
      }
      GiveLink(f, current, addr, text);
      ret := count;
    }

    /** write_resetchos: give up the caller's slot, then sweep the table. */
    method WriteResetchos(f: Forest, current: TaskId, count: nat) returns (ret: int)
      requires Valid() && WellFormed(f, procs.Length) && current in f
      modifies `heap, procs
      ensures Valid() && SameTexts(old(heap), heap)
      ensures Slots() == AfterReset(old(Slots()), f, current) && ret == count
      ensures forall i :: 0 <= i < procs.Length ==>
                && (Slots()[i].link.Some? <==>
                    old(Slots())[i].link.Some? && i != f[current].pid && exists u :: Claims(old(Slots()), f, u, i))
                && (Slots()[i].link.Some? ==> Slots()[i] == old(Slots())[i])
    {
      ghost var slots0 := Slots();
      ResetLink(f[current].pid);
      CleanupLinks(f);
      ret := count;
      forall i | 0 <= i < procs.Length
        ensures Slots()[i].link.Some? <==>
                slots0[i].link.Some? && i != f[current].pid && exists u :: Claims(slots0, f, u, i)
        ensures Slots()[i].link.Some? ==> Slots()[i] == slots0[i]
      {
        ResetSlot(slots0, f, current, i);
      }
    }

    /** chos_do_fork after do_fork has returned: find the new task and set its link. */
    method ForkReturn(f: Forest, link: Option<Addr>, pid: nat)
      requires Valid() && WellFormed(f, procs.Length)
      requires link.Some? ==> link.value in Held(Slots()) && SafeToSet(Slots(), pid, link.value)
      modifies `heap, procs
      ensures Valid() && SameTexts(old(heap), heap)
      ensures Slots() == AfterFork(old(Slots()), f, FindTask(f, pid), link)
    {
      var t := FindTask(f, pid);
      if t.Some? {
        SetLink(link, f[t.value]);
      }
    }

    /**
     chos_do_fork with nothing between the birth and the return.  `born` is what do_fork
     did: the new task, or nothing when it failed.
     */
    method ChosDoFork(f: Forest, current: TaskId, born: Option<(TaskId, Task)>)
      requires Valid() && WellFormed(f, procs.Length) && current in f
      requires born.Some? ==> CanBeBorn(f, procs.Length, born.value.0, born.value.1)
      modifies `heap, procs
      ensures Valid() && SameTexts(old(heap), heap)
      ensures born.None? ==> Slots() == Compress(old(Slots()), f, current)
      ensures born.Some? ==>
                Slots() == Compress(old(Slots()), f, current)
                             [born.value.1.pid := Slot(Resolve(old(Slots()), f, current), born.value.1.start)]
    {
      ghost var slots0 := Slots();
      var link := LookupLink(f, Some(current));
      if born.Some? {
        var (c, k) := born.value;
        var f' := Birth(f, c, k);
        BirthFound(f, procs.Length, c, k);
        if link.Some? {
          AnswerHeld(slots0, f, current, k.pid);
        }
        ForkReturn(f', link, k.pid);
      } else {
        CompressTwice(slots0, f, current);
        var _ := LookupLink(f, Some(current));
      }
    }

    /** my_sys_exit and my_sys_exit_group: resolve every child while its parent is still there. */
    method MySysExit(f: Forest, kids: seq<TaskId>)
      requires Valid() && WellFormed(f, procs.Length) && forall k :: k in kids ==> k in f
      modifies `heap, procs
      ensures Valid() && SameTexts(old(heap), heap)
      ensures Slots() == CompressAll(old(Slots()), f, kids)
    {
      ghost var slots0 := Slots();
      for i := 0 to |kids|
        invariant Valid() && SameTexts(old(heap), heap)
        invariant CompressAll(Slots(), f, kids[i..]) == CompressAll(slots0, f, kids)
      {
        assert kids[i] in kids && kids[i..][1..] == kids[i + 1..];
        var _ := LookupLink(f, Some(kids[i]));
      }
    }
  }

  /** A live task has pid `i` and the start second in its slot. */
  ghost predicate Claims(slots: seq<Slot>, f: Forest, u: TaskId, i: nat)
    requires i < |slots|
  {
    u in f && f[u].pid == i && f[u].start == slots[i].start
  }

  lemma StaleIff(slots: seq<Slot>, slots': seq<Slot>, f: Forest, i: nat)
    requires i < |slots| && i < |slots'| && slots'[i] == slots[i] && slots[i].link.Some?
    ensures Stale(slots', f, i) <==> !exists u :: Claims(slots, f, u, i)
  {
    if !Stale(slots', f, i) {
      var u :| u in f && f[u].pid == i && f[u].start == slots'[i].start;
      assert Claims(slots, f, u, i);
    }
  }

  /** After write_resetchos a slot is filled if and only if it was, for a live task other than the caller. */
  lemma ResetSlot(slots: seq<Slot>, f: Forest, t: TaskId, i: nat)
    requires WellFormed(f, |slots|) && t in f && i < |slots|
    ensures var slot := AfterReset(slots, f, t)[i];
            && (slot.link.Some? <==> slots[i].link.Some? && i != f[t].pid && exists u :: Claims(slots, f, u, i))
            && (slot.link.Some? ==> slot == slots[i])
  {
    if i != f[t].pid && slots[i].link.Some? {
      StaleIff(slots, slots[f[t].pid := EMPTY], f, i);
    }
  }

  /** Every task the lookup passed has the answer in its slot, or an empty slot if there is none. */
  ghost predicate Traced(before: seq<Slot>, after: seq<Slot>, f: Forest, t: TaskId, link: Option<Addr>)
    requires WellFormed(f, |before|) && |after| == |before| && t in f
  {
    forall u :: u in Walk(Own(before, f), Up(f), t) ==>
      u in f && after[f[u].pid] == if link.Some? then Slot(link, f[u].start) else Slot(None, 0)
  }

  lemma LookupTraced(slots: seq<Slot>, f: Forest, t: TaskId)
    requires WellFormed(f, |slots|) && t in f
    ensures Traced(slots, Compress(slots, f, t), f, t, Resolve(slots, f, t))
  {
    CompressExact(slots, f, t);
  }

  function SweptSlot(s: Slot, f: Forest, i: nat): Slot
    requires DistinctPids(f)
  {
    var t := FindTask(f, i);
    if s.link.Some? && (t.None? || s.start != f[t.value].start) then EMPTY else s
  }

  /** The test of cleanup_links: no task has the pid, or it started at another second. */
  lemma SweepAt(slots: seq<Slot>, f: Forest, i: nat)
    requires DistinctPids(f) && i < |slots|
    ensures Sweep(slots, f)[i] == SweptSlot(slots[i], f, i)
  {
    var t := FindTask(f, i);
    forall u | u in f && f[u].pid == i ensures t == Some(u) {
      assert PidOf(f, u) == i;
      assert t.Some? ==> PidOf(f, t.value) == i;
    }
  }

  lemma HeldElsewhere(slots: seq<Slot>, i: nat, pid: nat, a: Addr)
    requires i < |slots| && i != pid && slots[i].link == Some(a)
    ensures a in Held(slots) && SafeToSet(slots, pid, a)
  {
    assert i in Holders(slots, a) - {pid};
  }

  lemma BirthFound(f: Forest, max: nat, c: TaskId, k: Task)
    requires WellFormed(f, max) && CanBeBorn(f, max, c, k)
    ensures WellFormed(Birth(f, c, k), max) && FindTask(Birth(f, c, k), k.pid) == Some(c)
  {
    BirthWellFormed(f, max, c, k);
    var g := Birth(f, c, k);
    var t := FindTask(g, k.pid);
    assert PidOf(g, c) == k.pid && (t.Some? ==> PidOf(g, t.value) == k.pid);
  }

  /** After a lookup by the parent its own slot, which is not the child's, holds the answer. */
  lemma AnswerHeld(slots: seq<Slot>, f: Forest, t: TaskId, pid: nat)
    requires WellFormed(f, |slots|) && t in f && Resolve(slots, f, t).Some? && PidOf(f, t) != pid
    ensures var after, a := Compress(slots, f, t), Resolve(slots, f, t).value;
            a in Held(after) && SafeToSet(after, pid, a)
  {
    ResolveHeld(slots, f, t);
    HeldElsewhere(Compress(slots, f, t), f[t].pid, pid, Resolve(slots, f, t).value);
  }

  /** After a lookup of the parent has answered, the parent's own slot holds the answer. */
  lemma ParentHolds(slots: seq<Slot>, f: Forest, t: TaskId)
    requires WellFormed(f, |slots|) && t in f && t != INIT && !Cached(slots, f[t])
    requires Resolve(slots, f, t).Some?
    ensures var after, a := Compress(slots, f, Father(f, t)), Resolve(slots, f, t).value;
            a in Held(after) && SafeToSet(after, f[t].pid, a)
  {
    var p := Father(f, t);
    var after := Compress(slots, f, p);
    assert PidOf(f, p) != PidOf(f, t);
    ResolveHeld(slots, f, p);
    HeldElsewhere(after, f[p].pid, f[t].pid, Resolve(slots, f, t).value);
  }
}

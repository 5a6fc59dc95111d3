/**
 Manual reference counts on the links of the table.  `Counts` is what every operation
 keeps: each link on the heap counts exactly the slots that point to it, and no slot
 points to a link that has been freed.
 */
module RefCounts {
  import opened Basics
  import opened Slots

  datatype Link = Link(text: string, count: int)

  ghost function Holders(slots: seq<Slot>, a: Addr): (r: set<int>)
  {
    set i | 0 <= i < |slots| && slots[i].link == Some(a)
  }

  ghost predicate Counts(slots: seq<Slot>, heap: map<Addr, Link>) {
    && (forall a :: a in heap ==> heap[a].count == |Holders(slots, a)|)
    && Held(slots) <= heap.Keys
  }

  /** Counts are exact and nothing is leaked: the heap is exactly what the slots hold. */
  ghost predicate Exact(slots: seq<Slot>, heap: map<Addr, Link>) {
    Counts(slots, heap) && heap.Keys == Held(slots)
  }

  ghost function Texts(heap: map<Addr, Link>): (r: map<Addr, string>)
    ensures r.Keys == heap.Keys
  {
    map a | a in heap :: heap[a].text
  }

  lemma HoldersHeld(slots: seq<Slot>, a: Addr)
    ensures a in Held(slots) <==> |Holders(slots, a)| > 0
  {
    if a in Held(slots) {
      var i :| 0 <= i < |slots| && slots[i].link == Some(a);
      assert i in Holders(slots, a);
    } else {
      assert Holders(slots, a) == {};
    }
  }

  lemma HoldersUpdate(slots: seq<Slot>, i: nat, s: Slot, a: Addr)
    requires i < |slots|
    ensures |Holders(slots[i := s], a)| - (if s.link == Some(a) then 1 else 0)
         == |Holders(slots, a)| - (if slots[i].link == Some(a) then 1 else 0)
  {
    var rest := Holders(slots, a) - {i};
    assert Holders(slots, a) == if slots[i].link == Some(a) then rest + {i} else rest;
    assert Holders(slots[i := s], a) == if s.link == Some(a) then rest + {i} else rest;
  }

  ghost function Added(link: Option<Addr>): (r: set<Addr>)
  {
    if link.Some? then {link.value} else {}
  }

  lemma HeldUpdate(slots: seq<Slot>, i: nat, s: Slot)
    requires i < |slots|
    ensures Held(slots[i := s]) <= Held(slots) + Added(s.link)
    ensures Held(slots) <= Held(slots[i := s]) + (if slots[i].link.Some? then {slots[i].link.value} else {})
    ensures s.link.Some? ==> s.link.value in Held(slots[i := s])
  {
    var slots' := slots[i := s];
    forall a | a in Held(slots') ensures a in Held(slots) || s.link == Some(a) {
      var j :| 0 <= j < |slots'| && slots'[j].link == Some(a);
      assert j == i || slots[j].link == Some(a);
    }
    forall a | a in Held(slots) ensures a in Held(slots') || slots[i].link == Some(a) {
      var j :| 0 <= j < |slots| && slots[j].link == Some(a);
      assert j == i || slots'[j].link == Some(a);
    }
    assert slots'[i] == s;
  }

  /** The heap after one reference to `a` has been dropped. */
  function Drop(heap: map<Addr, Link>, a: Addr): map<Addr, Link>
    requires a in heap
  {
    if heap[a].count - 1 == 0 then heap - {a} else heap[a := heap[a].(count := heap[a].count - 1)]
  }

  /** Dropping the reference of a cleared slot frees its link exactly when no slot is left. */
  lemma DropKeepsCounts(slots: seq<Slot>, heap: map<Addr, Link>, i: nat, a: Addr)
    requires Counts(slots, heap) && i < |slots| && slots[i].link == Some(a)
    ensures a in heap
    ensures Counts(slots[i := EMPTY], Drop(heap, a))
    ensures Drop(heap, a).Keys == if a in Held(slots[i := EMPTY]) then heap.Keys else heap.Keys - {a}
  {
    var slots' := slots[i := EMPTY];
    HeldUpdate(slots, i, EMPTY);
    HoldersHeld(slots', a);
    HoldersUpdate(slots, i, EMPTY, a);
    var heap' := Drop(heap, a);
    if heap[a].count == 1 {
      assert heap'.Keys == heap.Keys - {a};
    } else {
      assert heap'.Keys == heap.Keys;
    }
    forall b | b in heap' ensures heap'[b].count == |Holders(slots', b)| {
      HoldersUpdate(slots, i, EMPTY, b);
    }
  }

  /** Clearing a slot that holds nothing changes no count. */
  lemma ClearKeepsCounts(slots: seq<Slot>, heap: map<Addr, Link>, i: nat, start: nat)
    requires Counts(slots, heap) && i < |slots| && slots[i].link == None
    ensures Counts(slots[i := Slot(None, start)], heap)
    ensures Held(slots[i := Slot(None, start)]) == Held(slots)
  {
    HeldUpdate(slots, i, Slot(None, start));
    forall b ensures |Holders(slots[i := Slot(None, start)], b)| == |Holders(slots, b)| {
      HoldersUpdate(slots, i, Slot(None, start), b);
    }
  }

  /** Taking a reference and storing it in an empty slot. */
  lemma TakeKeepsCounts(slots: seq<Slot>, heap: map<Addr, Link>, i: nat, a: Addr, start: nat)
    requires Counts(slots, heap) && i < |slots| && slots[i].link == None && a in heap
    ensures Counts(slots[i := Slot(Some(a), start)], heap[a := heap[a].(count := heap[a].count + 1)])
    ensures Held(slots[i := Slot(Some(a), start)]) == Held(slots) + {a}
  {
    HeldUpdate(slots, i, Slot(Some(a), start));
    forall b ensures |Holders(slots[i := Slot(Some(a), start)], b)|
                  == |Holders(slots, b)| + (if a == b then 1 else 0) {
      HoldersUpdate(slots, i, Slot(Some(a), start), b);
    }
  }

  /** The link, if any, whose last holder was slot `p`. */
  ghost function Freed(before: seq<Slot>, after: seq<Slot>, p: nat): (r: set<Addr>)
    requires p < |before|
  {
    if before[p].link.Some? && before[p].link.value !in Held(after) then {before[p].link.value} else {}
  }

  lemma HeldAfter(slots: seq<Slot>, p: nat, s: Slot)
    requires p < |slots|
    ensures Held(slots[p := s]) ==
            Held(slots) - Freed(slots, slots[p := s], p) + Added(s.link)
  {
    HeldUpdate(slots, p, s);
  }

  /**
   The obligation of a caller of `set_link(link, t)`, whose first act is to drop what t's
   slot holds: the link is still there afterwards if and only if it is null, or held by
   no slot yet (fresh), or held by a slot other than t's.
   */
  ghost predicate SafeToSet(slots: seq<Slot>, pid: nat, a: Addr) {
    Holders(slots, a) == {} || Holders(slots, a) - {pid} != {}
  }

  lemma SafeToSetIff(slots: seq<Slot>, heap: map<Addr, Link>, pid: nat, a: Addr)
    requires Counts(slots, heap) && pid < |slots| && a in heap
    ensures SafeToSet(slots, pid, a) <==>
            a in (if slots[pid].link.Some? then Drop(heap, slots[pid].link.value) else heap)
  {
    var others := Holders(slots, a) - {pid};
    if slots[pid].link == Some(a) {
      assert Holders(slots, a) == others + {pid};
      assert heap[a].count == |others| + 1;
    } else {
      assert Holders(slots, a) == others;
    }
  }

  /** Every link left was there before, with the same text. */
  ghost predicate SameTexts(before: map<Addr, Link>, after: map<Addr, Link>) {
    after.Keys <= before.Keys && forall a :: a in after ==> after[a].text == before[a].text
  }

  lemma TextsRetained(before: map<Addr, Link>, slots: seq<Slot>, after: map<Addr, Link>)
    requires Exact(slots, after) && SameTexts(before, after)
    ensures Texts(after) == Retain(slots, Texts(before))
  {
    SameMap(Texts(after), Retain(slots, Texts(before)));
  }

  lemma TextsCreated(heap: map<Addr, Link>, addr: Addr, text: string)
    ensures Texts(heap[addr := Link(text, 0)]) == Texts(heap)[addr := text]
  {
    SameMap(Texts(heap[addr := Link(text, 0)]), Texts(heap)[addr := text]);
  }

  /** reset_link on the heap: the slot's reference, if it has one, is dropped. */
  ghost function Dropped(slots: seq<Slot>, heap: map<Addr, Link>, p: nat): (r: map<Addr, Link>)
    requires p < |slots| && Held(slots) <= heap.Keys
  {
    if slots[p].link.Some? then Drop(heap, slots[p].link.value) else heap
  }

  ghost function Taken(heap: map<Addr, Link>, link: Option<Addr>): (r: map<Addr, Link>)
    requires link.Some? ==> link.value in heap
  {
    if link.Some? then heap[link.value := heap[link.value].(count := heap[link.value].count + 1)] else heap
  }

  lemma DroppedOutcome(slots: seq<Slot>, heap: map<Addr, Link>, p: nat)
    requires Counts(slots, heap) && p < |slots|
    ensures Counts(slots[p := EMPTY], Dropped(slots, heap, p))
    ensures Dropped(slots, heap, p).Keys == heap.Keys - Freed(slots, slots[p := EMPTY], p)
    ensures SameTexts(heap, Dropped(slots, heap, p))
  {
    if slots[p].link.Some? {
      DropKeepsCounts(slots, heap, p, slots[p].link.value);
    } else {
      ClearKeepsCounts(slots, heap, p, 0);
    }
  }

  lemma DroppedExact(slots: seq<Slot>, heap: map<Addr, Link>, p: nat)
    requires Exact(slots, heap) && p < |slots|
    ensures Exact(slots[p := EMPTY], Dropped(slots, heap, p))
  {
    DroppedOutcome(slots, heap, p);
    HeldAfter(slots, p, EMPTY);
  }

  /** What `set_link` gives up does not depend on what it stores, and is not what it stores. */
  lemma FreedEither(slots: seq<Slot>, pid: nat, link: Option<Addr>, start: nat)
    requires pid < |slots| && (link.Some? ==> SafeToSet(slots, pid, link.value))
    ensures Freed(slots, slots[pid := EMPTY], pid) == Freed(slots, slots[pid := Slot(link, start)], pid)
    ensures link.Some? ==> link.value !in Freed(slots, slots[pid := EMPTY], pid)
  {
    var without, with := slots[pid := EMPTY], slots[pid := Slot(link, start)];
    if link.Some? && slots[pid].link == link {
      assert pid in Holders(slots, link.value);
      var i :| i in Holders(slots, link.value) - {pid};
      assert without[i].link == link;
    }
    HeldUpdate(without, pid, Slot(link, start));
    assert with == without[pid := Slot(link, start)];
  }

  lemma TakenOutcome(slots: seq<Slot>, heap: map<Addr, Link>, p: nat, link: Option<Addr>, start: nat)
    requires Counts(slots, heap) && p < |slots|
    requires link.Some? ==> link.value in heap && SafeToSet(slots, p, link.value)
    ensures link.Some? ==> link.value in Dropped(slots, heap, p)
    ensures var heap' := Taken(Dropped(slots, heap, p), link);
            && Counts(slots[p := Slot(link, start)], heap')
            && heap'.Keys == heap.Keys - Freed(slots, slots[p := Slot(link, start)], p)
            && SameTexts(heap, heap')
  {
    DroppedOutcome(slots, heap, p);
    FreedEither(slots, p, link, start);
    var cleared, heap1 := slots[p := EMPTY], Dropped(slots, heap, p);
    if link.Some? {
      TakeKeepsCounts(cleared, heap1, p, link.value, start);
    } else {
      ClearKeepsCounts(cleared, heap1, p, start);
    }
    assert cleared[p := Slot(link, start)] == slots[p := Slot(link, start)];
  }

  lemma TakenExact(slots: seq<Slot>, heap: map<Addr, Link>, p: nat, link: Option<Addr>, start: nat)
    requires Counts(slots, heap) && p < |slots|
    requires link.Some? ==> link.value in heap && SafeToSet(slots, p, link.value)
    requires heap.Keys == Held(slots) + Added(link)
    ensures link.Some? ==> link.value in Dropped(slots, heap, p)
    ensures Exact(slots[p := Slot(link, start)], Taken(Dropped(slots, heap, p), link))
  {
    TakenOutcome(slots, heap, p, link, start);
    FreedEither(slots, p, link, start);
    HeldAfter(slots, p, Slot(link, start));
  }
}

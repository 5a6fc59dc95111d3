/**
 Nearest-ancestor resolution over a process tree, with nothing of the kernel in it.

 A task either owns a value or takes the value of its nearest ancestor that owns one;
 the init task owns nothing and ends every walk.  `Pin` is what path compression does
 to this picture: a walk leaves its answer behind in every task it passed.
 */
module Ancestry {
  import opened Basics

  /** Tasks are numbered in order of birth and numbers are never reused. */
  type TaskId = nat

  /** The init task (pid 1), the oldest task there is. */
  const INIT: TaskId := 0

  type Parents = map<TaskId, TaskId>

  ghost function Parent(up: Parents, t: TaskId): TaskId
    requires t in up
  {
    up[t]
  }

  /** Every task but init has a live parent that was born before it. */
  ghost predicate Rooted(up: Parents) {
    && INIT in up
    && forall t {:trigger Parent(up, t)} :: t in up && t != INIT ==> Parent(up, t) in up && Parent(up, t) < t
  }

  /** What `t` resolves to. */
  ghost function Find<V>(own: map<TaskId, V>, up: Parents, t: TaskId): (r: Option<V>)
    requires Rooted(up) && t in up
    decreases t
  {
    if t == INIT then None
    else if t in own then Some(own[t])
    else Find(own, up, Parent(up, t))
  }

  /** The tasks a resolution of `t` passes before it reaches an owner or init. */
  ghost function Walk<V>(own: map<TaskId, V>, up: Parents, t: TaskId): (w: set<TaskId>)
    requires Rooted(up) && t in up
    decreases t
  {
    if t == INIT || t in own then {} else {t} + Walk(own, up, Parent(up, t))
  }

  /** The owners after a resolution of `t` has cached its answer along the walk. */
  ghost function Pin<V>(own: map<TaskId, V>, up: Parents, t: TaskId): (r: map<TaskId, V>)
    requires Rooted(up) && t in up
  {
    match Find(own, up, t)
    case None => own
    case Some(v) => own + map u | u in Walk(own, up, t) :: v
  }

  ghost function PinAll<V>(own: map<TaskId, V>, up: Parents, kids: seq<TaskId>): (r: map<TaskId, V>)
    requires Rooted(up) && forall k :: k in kids ==> k in up
    decreases |kids|
  {
    if kids == [] then own else PinAll(Pin(own, up, kids[0]), up, kids[1..])
  }

  /** The tree after `e` is gone and its children have been handed to init. */
  ghost function Reparent(up: Parents, e: TaskId): (r: Parents)
    requires Rooted(up) && e != INIT
    ensures Rooted(r) && r.Keys == up.Keys - {e}
  {
    map t | t in up && t != e :: if Parent(up, t) == e then INIT else Parent(up, t)
  }

  lemma {:induction false} WalkAgrees<V>(own: map<TaskId, V>, up: Parents, t: TaskId, u: TaskId)
    requires Rooted(up) && t in up && u in Walk(own, up, t)
    ensures u in up && u != INIT && u !in own
    ensures Find(own, up, u) == Find(own, up, t)
    decreases t
  {
    if u != t {
      WalkAgrees(own, up, Parent(up, t), u);
    }
  }

  /** Path compression is invisible: caching along a walk changes no task's answer. */
  lemma {:induction false} PinInvisible<V>(own: map<TaskId, V>, up: Parents, t: TaskId, u: TaskId)
    requires Rooted(up) && t in up && u in up
    ensures Find(Pin(own, up, t), up, u) == Find(own, up, u)
    decreases u
  {
    if u in Walk(own, up, t) {
      WalkAgrees(own, up, t, u);
      if Find(own, up, u).None? {
        assert Pin(own, up, t) == own;
      }
    } else if u != INIT && u !in own {
      PinInvisible(own, up, t, Parent(up, u));
    } else if u in own && u != INIT {
      assert Pin(own, up, t)[u] == own[u];
    }
  }

  lemma {:induction false} PinKeeps<V>(own: map<TaskId, V>, up: Parents, t: TaskId, u: TaskId)
    requires Rooted(up) && t in up && u in own
    ensures u in Pin(own, up, t) && Pin(own, up, t)[u] == own[u]
  {
    if u in Walk(own, up, t) {
      WalkAgrees(own, up, t, u);
    }
  }

  /** A second walk passes what it would have passed, except what the first has left its answer with. */
  lemma {:induction false} WalkAfterPin<V>(own: map<TaskId, V>, up: Parents, first: TaskId, t: TaskId, u: TaskId)
    requires Rooted(up) && first in up && t in up
    ensures u in Walk(Pin(own, up, first), up, t) ==> u in Walk(own, up, t)
    ensures u in Walk(own, up, t) ==> u in Walk(Pin(own, up, first), up, t) || u in Walk(own, up, first)
    decreases t
  {
    if t != INIT && t !in own {
      if t in Walk(own, up, first) {
        WalkOnward(own, up, first, t, u);
      }
      WalkAfterPin(own, up, first, Parent(up, t), u);
    } else if t in own {
      PinKeeps(own, up, first, t);
    }
  }

  lemma {:induction false} WalkBelow<V>(own: map<TaskId, V>, up: Parents, t: TaskId, u: TaskId)
    requires Rooted(up) && t in up && u in Walk(own, up, t)
    ensures u <= t
    decreases t
  {
    if u != t {
      WalkBelow(own, up, Parent(up, t), u);
    }
  }

  /** From any task it passes a walk goes on alike. */
  lemma {:induction false} WalkOnward<V>(own: map<TaskId, V>, up: Parents, first: TaskId, t: TaskId, u: TaskId)
    requires Rooted(up) && first in up && t in up && t in Walk(own, up, first)
    ensures u in Walk(own, up, t) ==> u in Walk(own, up, first)
    decreases first
  {
    if t != first {
      WalkOnward(own, up, Parent(up, first), t, u);
    }
  }

  /** One step of the walk at a time: the pins of `t` are those of its parent and its own. */
  lemma PinStep<V>(own: map<TaskId, V>, up: Parents, t: TaskId)
    requires Rooted(up) && t in up && t != INIT && t !in own
    ensures Find(own, up, t) == Find(own, up, Parent(up, t))
    ensures Pin(own, up, t) ==
            match Find(own, up, t) case None => own case Some(v) => Pin(own, up, Parent(up, t))[t := v]
  {
    match Find(own, up, t) {
      case None =>
      case Some(v) =>
        var below := map u | u in Walk(own, up, t) :: v;
        var above := map u | u in Walk(own, up, Parent(up, t)) :: v;
        assert Walk(own, up, t) == {t} + Walk(own, up, Parent(up, t));
        assert below == above[t := v];
    }
  }

  /** After the walk, its starting point owns the answer. */
  lemma PinOwns<V>(own: map<TaskId, V>, up: Parents, t: TaskId)
    requires Rooted(up) && t in up && Find(own, up, t).Some?
    ensures t != INIT && t in Pin(own, up, t) && Pin(own, up, t)[t] == Find(own, up, t).value
  {
    if t in own {
      PinKeeps(own, up, t, t);
    }
  }

  lemma {:induction false} PinAllInvisible<V>(own: map<TaskId, V>, up: Parents, kids: seq<TaskId>, u: TaskId)
    requires Rooted(up) && (forall k :: k in kids ==> k in up) && u in up
    ensures Find(PinAll(own, up, kids), up, u) == Find(own, up, u)
    decreases |kids|
  {
    if kids != [] {
      PinInvisible(own, up, kids[0], u);
      PinAllInvisible(Pin(own, up, kids[0]), up, kids[1..], u);
    }
  }

  lemma {:induction false} PinAllKeeps<V>(own: map<TaskId, V>, up: Parents, kids: seq<TaskId>, u: TaskId)
    requires Rooted(up) && (forall k :: k in kids ==> k in up) && u in own
    ensures u in PinAll(own, up, kids) && PinAll(own, up, kids)[u] == own[u]
    decreases |kids|
  {
    if kids != [] {
      PinKeeps(own, up, kids[0], u);
      PinAllKeeps(Pin(own, up, kids[0]), up, kids[1..], u);
    }
  }

  /** Every listed child that resolves to something owns it afterwards. */
  lemma {:induction false} PinAllOwns<V>(own: map<TaskId, V>, up: Parents, kids: seq<TaskId>, k: TaskId)
    requires Rooted(up) && (forall k :: k in kids ==> k in up) && k in kids
    requires Find(own, up, k).Some?
    ensures k in PinAll(own, up, kids) && PinAll(own, up, kids)[k] == Find(own, up, k).value
    decreases |kids|
  {
    var pinned := Pin(own, up, kids[0]);
    if k == kids[0] {
      PinOwns(own, up, k);
      PinAllKeeps(pinned, up, kids[1..], k);
    } else {
      PinInvisible(own, up, kids[0], k);
      PinAllOwns(pinned, up, kids[1..], k);
    }
  }

  /** Children have been pinned, so removing the exiting task is invisible to all survivors. */
  lemma {:induction false} ExitInvisible<V>(own: map<TaskId, V>, up: Parents, e: TaskId, kids: seq<TaskId>, u: TaskId)
    requires Rooted(up) && e in up && e != INIT && u in up && u != e
    requires forall k :: k in kids ==> k in up
    requires forall k :: k in up && k != INIT && Parent(up, k) == e ==> k in kids
    ensures Find(PinAll(own, up, kids) - {e}, Reparent(up, e), u) == Find(own, up, u)
    decreases u
  {
    var pinned := PinAll(own, up, kids);
    PinAllInvisible(own, up, kids, u);
    if u != INIT && u !in pinned {
      if Parent(up, u) == e {
        if Find(own, up, u).Some? {
          PinAllOwns(own, up, kids, u);
        }
        assert Find(pinned - {e}, Reparent(up, e), INIT) == None;
      } else {
        PinAllInvisible(own, up, kids, Parent(up, u));
        ExitInvisible(own, up, e, kids, Parent(up, u));
      }
    }
  }

  // ----- entries that are known to be coming -----

  /** Each task of `extra` already resolves to its entry, by itself or through its parent. */
  ghost predicate Mirrors<V>(own: map<TaskId, V>, up: Parents, extra: map<TaskId, V>)
    requires Rooted(up)
  {
    forall c :: c in extra ==>
      && c in up && c != INIT
      && (if c in own then own[c] == extra[c]
          else Parent(up, c) != INIT && Parent(up, c) in own && own[Parent(up, c)] == extra[c])
  }

  lemma {:induction false} OverlayFind<V>(own: map<TaskId, V>, up: Parents, extra: map<TaskId, V>, t: TaskId)
    requires Rooted(up) && t in up && Mirrors(own, up, extra)
    ensures Find(own + extra, up, t) == Find(own, up, t)
    decreases t
  {
    if t != INIT && t !in own && t !in extra {
      OverlayFind(own, up, extra, Parent(up, t));
    }
  }

  lemma {:induction false} OverlayWalk<V>(own: map<TaskId, V>, up: Parents, extra: map<TaskId, V>, t: TaskId)
    requires Rooted(up) && t in up && Mirrors(own, up, extra)
    ensures Walk(own + extra, up, t) == Walk(own, up, t) - extra.Keys
    decreases t
  {
    if t != INIT && t !in own {
      if t in extra {
        assert Walk(own, up, Parent(up, t)) == {};
        assert Walk(own, up, t) == {t};
      } else {
        OverlayWalk(own, up, extra, Parent(up, t));
      }
    }
  }

  /** Resolving with the coming entries in place or adding them afterwards is the same. */
  lemma OverlayPin<V>(own: map<TaskId, V>, up: Parents, extra: map<TaskId, V>, t: TaskId)
    requires Rooted(up) && t in up && Mirrors(own, up, extra)
    ensures Pin(own + extra, up, t) == Pin(own, up, t) + extra
    ensures Mirrors(Pin(own, up, t), up, extra)
  {
    OverlayFind(own, up, extra, t);
    OverlayWalk(own, up, extra, t);
    var pinned := Pin(own, up, t);
    forall c | c in extra
      ensures if c in pinned then pinned[c] == extra[c]
              else Parent(up, c) != INIT && Parent(up, c) in pinned && pinned[Parent(up, c)] == extra[c]
    {
      if c in own {
        PinKeeps(own, up, t, c);
      } else {
        PinKeeps(own, up, t, Parent(up, c));
        if c in pinned {
          WalkAgrees(own, up, t, c);
        }
      }
    }
    var left, right := Pin(own + extra, up, t), pinned + extra;
    forall u | u in left.Keys + right.Keys
      ensures u in left && u in right && left[u] == right[u]
    {
      if u in own + extra && u in Walk(own + extra, up, t) {
        WalkAgrees(own + extra, up, t, u);
      }
    }
    assert left.Keys == right.Keys;
  }

  lemma {:induction false} OverlayPinAll<V>(own: map<TaskId, V>, up: Parents, extra: map<TaskId, V>, kids: seq<TaskId>)
    requires Rooted(up) && (forall k :: k in kids ==> k in up) && Mirrors(own, up, extra)
    ensures PinAll(own + extra, up, kids) == PinAll(own, up, kids) + extra
    decreases |kids|
  {
    if kids != [] {
      OverlayPin(own, up, extra, kids[0]);
      OverlayPinAll(Pin(own, up, kids[0]), up, extra, kids[1..]);
    }
  }

  // ----- how answers depend on owners and tree -----

  lemma {:induction false} ForgetNothing<V>(own: map<TaskId, V>, up: Parents, t: TaskId, u: TaskId)
    requires Rooted(up) && u in up && Find(own, up, u) == None
    ensures Find(own - {t}, up, u) == None
    decreases u
  {
    if u != INIT {
      ForgetNothing(own, up, t, Parent(up, u));
    }
  }

  /** Who resolves to nothing still does when some task goes without anybody having looked. */
  lemma {:induction false} GoneNothing<V>(own: map<TaskId, V>, up: Parents, e: TaskId, u: TaskId)
    requires Rooted(up) && e != INIT && u in up && u != e && Find(own, up, u) == None
    ensures Find(own - {e}, Reparent(up, e), u) == None
    decreases u
  {
    if u != INIT && Parent(up, u) != e {
      GoneNothing(own, up, e, Parent(up, u));
    }
  }

  lemma {:induction false} ChooseElsewhere<V>(own: map<TaskId, V>, up: Parents, t: TaskId, v: V, u: TaskId)
    requires Rooted(up) && u in up && Find(own, up, u) == None && t !in Walk(own, up, u)
    ensures Find(own[t := v], up, u) == None
    decreases u
  {
    if u != INIT {
      ChooseElsewhere(own, up, t, v, Parent(up, u));
    }
  }

  /** A newborn changes nobody else's answer. */
  lemma {:induction false} BirthElsewhere<V>(own: map<TaskId, V>, own': map<TaskId, V>, up: Parents,
                                             c: TaskId, p: TaskId, u: TaskId)
    requires Rooted(up) && p in up && c !in up && p < c && u in up
    requires own' - {c} == own - {c}
    ensures Rooted(up[c := p])
    ensures Find(own', up[c := p], u) == Find(own, up, u)
    decreases u
  {
    BirthRooted(up, c, p);
    assert u in own <==> u in own - {c};
    assert u in own' <==> u in own' - {c};
    assert u in own ==> own[u] == (own - {c})[u] == (own' - {c})[u] == own'[u];
    if u != INIT && u !in own {
      assert Parent(up[c := p], u) == Parent(up, u);
      BirthElsewhere(own, own', up, c, p, Parent(up, u));
    }
  }

  lemma BirthRooted(up: Parents, c: TaskId, p: TaskId)
    requires Rooted(up) && p in up && c !in up && p < c
    ensures Rooted(up[c := p])
  {
    forall t | t in up && t != INIT
      ensures Parent(up[c := p], t) in up && Parent(up[c := p], t) < t
    {
      assert Parent(up[c := p], t) == Parent(up, t);
    }
  }

  /** The answer of `t` comes from `p` or from above it: nobody below `p` on the way owns anything. */
  ghost predicate Reaches<V>(own: map<TaskId, V>, up: Parents, p: TaskId, t: TaskId)
    requires Rooted(up) && t in up
    decreases t
  {
    t != INIT && (t == p || (t !in own && Reaches(own, up, p, Parent(up, t))))
  }

  /** The tasks a walk passes are those below the first owner, and each is reached from the start. */
  lemma {:induction false} WalkIffReaches<V>(own: map<TaskId, V>, up: Parents, p: TaskId, t: TaskId)
    requires Rooted(up) && t in up
    ensures p in Walk(own, up, t) <==> Reaches(own, up, p, t) && p !in own
    decreases t
  {
    if t != INIT && t !in own {
      WalkIffReaches(own, up, p, Parent(up, t));
    }
  }

  /**
   A look is invisible when it happens, but it is remembered: a later choice of any other task
   reaches exactly those below it that nothing owned in between has cut off, and nobody who
   has looked and found something.
   */
  lemma {:induction false} LookIsRemembered<V>(own: map<TaskId, V>, up: Parents, t: TaskId, p: TaskId, v: V)
    requires Rooted(up) && t in up
    ensures Find(own[p := v], up, t) == if Reaches(own, up, p, t) then Some(v) else Find(own, up, t)
    ensures p != t && Find(own, up, t).Some? ==> Find(Pin(own, up, t)[p := v], up, t) == Find(own, up, t)
    decreases t
  {
    if Find(own, up, t).Some? {
      PinOwns(own, up, t);
    }
    if t != INIT && t != p && t !in own {
      LookIsRemembered(own, up, Parent(up, t), p, v);
    }
  }

  // ----- values seen through a table -----

  ghost function Render<A, B>(own: map<TaskId, A>, g: map<A, B>): (r: map<TaskId, B>)
    requires own.Values <= g.Keys
  {
    map t | t in own :: (assert own[t] in own.Values; g[own[t]])
  }

  lemma {:induction false} RenderFind<A, B>(own: map<TaskId, A>, g: map<A, B>, up: Parents, t: TaskId)
    requires own.Values <= g.Keys && Rooted(up) && t in up
    ensures Find(own, up, t).Some? ==> Find(own, up, t).value in g
    ensures Find(Render(own, g), up, t) ==
            match Find(own, up, t) case None => None case Some(a) => Some(g[a])
    ensures Walk(Render(own, g), up, t) == Walk(own, up, t)
    decreases t
  {
    if t != INIT {
      if t in own {
        assert own[t] in own.Values;
      } else {
        RenderFind(own, g, up, Parent(up, t));
      }
    }
  }

  lemma RenderPin<A, B>(own: map<TaskId, A>, g: map<A, B>, up: Parents, t: TaskId)
    requires own.Values <= g.Keys && Rooted(up) && t in up
    ensures Pin(own, up, t).Values <= g.Keys
    ensures Pin(Render(own, g), up, t) == Render(Pin(own, up, t), g)
  {
    RenderFind(own, g, up, t);
    var pinned := Pin(own, up, t);
    forall a | a in pinned.Values ensures a in g {
      var u :| u in pinned && pinned[u] == a;
      if u in own && u !in Walk(own, up, t) {
        assert own[u] in own.Values;
      }
    }
  }
}

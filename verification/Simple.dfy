/**
 The simple machine: tasks own texts, everybody else takes the text of the nearest ancestor
 that owns one, and that is all.  There are no pids, no start seconds, no slots, no counts
 and no forks under way.  A look leaves its answer with the tasks it passed; a child is
 born owning what its parent resolves to.
 */
module Simple {
  import opened Ancestry
  import opened LinkTable

  datatype Act<V> =
    | Choose(t: TaskId, v: V)
    | Forget(t: TaskId)
    | Look(t: TaskId)
    | Bear(t: TaskId)              // a child that inherits
    | BearBare(t: TaskId)          // a child that owns nothing
    | Die(t: TaskId, kids: seq<TaskId>)
    | Idle

  ghost predicate Can<V>(up: Parents, next: TaskId, act: Act<V>) {
    match act
    case Choose(t, _) => t in up
    case Forget(t) => t in up
    case Look(t) => t in up
    case Bear(t) => t in up && t < next && next !in up
    case BearBare(t) => t in up && t < next && next !in up
    case Die(t, kids) => t in up && t != INIT && forall k :: k in kids ==> k in up
    case Idle => true
  }

  ghost function OwnStep<V>(own: map<TaskId, V>, up: Parents, next: TaskId, act: Act<V>): (r: map<TaskId, V>)
    requires Rooted(up) && Can(up, next, act)
  {
    match act
    case Choose(t, v) => if t == INIT then own else own[t := v]
    case Forget(t) => own - {t}
    case Look(t) => Pin(own, up, t)
    case Bear(t) =>
      (match Find(own, up, t)
       case None => Pin(own, up, t)
       case Some(v) => Pin(own, up, t)[next := v])
    case BearBare(t) => own
    case Die(t, kids) => PinAll(own, up, kids) - {t}
    case Idle => own
  }

  ghost function UpStep<V>(up: Parents, next: TaskId, act: Act<V>): (r: Parents)
    requires Rooted(up) && Can(up, next, act)
  {
    match act
    case Bear(t) => up[next := t]
    case BearBare(t) => up[next := t]
    case Die(t, _) => Reparent(up, t)
    case _ => up
  }

  ghost function NextStep<V>(next: TaskId, act: Act<V>): TaskId
  {
    if act.Bear? || act.BearBare? then next + 1 else next
  }

  /** The state of the simple machine. */
  datatype Owned = Owned(own: map<TaskId, string>, up: Parents, next: TaskId, valid: seq<string>)

  /** What happens, as far as tasks and texts are concerned. */
  datatype Event =
    | Writes(t: TaskId, text: string)
    | Resets(t: TaskId)
    | Reads(t: TaskId)
    | Forks(t: TaskId)
    | Spawns(t: TaskId)
    | Exits(t: TaskId, kids: seq<TaskId>)
    | Permits(euid: nat, buf: seq<char>, count: nat)
    | Nothing

  /** What the caller gets back: a text, or zero or a negative error code. */
  datatype Reply = Text(text: string) | Code(ret: int)

  function EventAct(m: Owned, e: Event): (act: Act<string>)
  {
    match e
    case Writes(t, text) => if text == DEFAULT || text in m.valid then Choose(t, text) else Idle
    case Resets(t) => Forget(t)
    case Reads(t) => Look(t)
    case Forks(t) => Bear(t)
    case Spawns(t) => BearBare(t)
    case Exits(t, kids) => Die(t, kids)
    case Permits(_, _, _) => Idle
    case Nothing => Idle
  }

  ghost predicate Possible(m: Owned, e: Event) {
    && Rooted(m.up) && Can(m.up, m.next, EventAct(m, e))
    && (e.Permits? ==> 0 < |e.buf| && e.count <= |e.buf|)
  }

  ghost function SimpleExec(m: Owned, e: Event): (r: Owned)
    requires Possible(m, e)
  {
    var act := EventAct(m, e);
    Owned(OwnStep(m.own, m.up, m.next, act), UpStep(m.up, m.next, act), NextStep(m.next, act),
          if e.Permits? then NewValid(m.valid, e.euid, e.buf, e.count) else m.valid)
  }

  ghost function SimpleObserve(m: Owned, e: Event): (r: Reply)
    requires Possible(m, e)
  {
    match e
    case Reads(t) => Text(match Find(m.own, m.up, t) case None => DEFAULT case Some(text) => text)
    case Writes(_, text) => Code(if text == DEFAULT || text in m.valid then 0 else -ENOENT)
    case Permits(euid, _, _) => Code(if euid != 0 then -EPERM else 0)
    case _ => Code(0)
  }

  // ----- owning addresses and owning what is at them come to the same -----

  ghost predicate SeenAs<A, B>(act: Act<A>, seen: Act<B>, g: map<A, B>) {
    match act
    case Choose(t, a) => a in g && seen == Choose(t, g[a])
    case Forget(t) => seen == Forget(t)
    case Look(t) => seen == Look(t)
    case Bear(t) => seen == Bear(t)
    case BearBare(t) => seen == BearBare(t)
    case Die(t, kids) => seen == Die(t, kids)
    case Idle => seen == Idle
  }

  lemma {:induction false} RenderPinAll<A, B>(own: map<TaskId, A>, g: map<A, B>, up: Parents, kids: seq<TaskId>)
    requires own.Values <= g.Keys && Rooted(up) && forall k :: k in kids ==> k in up
    ensures PinAll(own, up, kids).Values <= g.Keys
    ensures PinAll(Render(own, g), up, kids) == Render(PinAll(own, up, kids), g)
    decreases |kids|
  {
    if kids != [] {
      RenderPin(own, g, up, kids[0]);
      RenderPinAll(Pin(own, up, kids[0]), g, up, kids[1..]);
    }
  }

  lemma RenderAdd<A, B>(own: map<TaskId, A>, g: map<A, B>, t: TaskId, a: A)
    requires own.Values <= g.Keys && a in g
    ensures own[t := a].Values <= g.Keys
    ensures Render(own[t := a], g) == Render(own, g)[t := g[a]]
  {
    var own' := own[t := a];
    forall v | v in own'.Values ensures v in g {
      var u :| u in own' && own'[u] == v;
      assert u != t ==> own[u] in own.Values;
    }
  }

  lemma RenderRemove<A, B>(own: map<TaskId, A>, g: map<A, B>, t: TaskId)
    requires own.Values <= g.Keys
    ensures (own - {t}).Values <= g.Keys
    ensures Render(own - {t}, g) == Render(own, g) - {t}
  {
    var own' := own - {t};
    forall v | v in own'.Values ensures v in g {
      var u :| u in own' && own'[u] == v;
      assert own[u] in own.Values;
    }
  }

  lemma RenderStep<A, B>(own: map<TaskId, A>, g: map<A, B>, up: Parents, next: TaskId, act: Act<A>, seen: Act<B>)
    requires own.Values <= g.Keys && Rooted(up) && Can(up, next, act) && SeenAs(act, seen, g)
    ensures OwnStep(own, up, next, act).Values <= g.Keys
    ensures Can(up, next, seen)
    ensures OwnStep(Render(own, g), up, next, seen) == Render(OwnStep(own, up, next, act), g)
    ensures UpStep(up, next, seen) == UpStep(up, next, act) && NextStep(next, seen) == NextStep(next, act)
  {
    match act
    case Choose(t, a) => RenderAdd(own, g, t, a);
    case Forget(t) => RenderRemove(own, g, t);
    case Look(t) => RenderPin(own, g, up, t);
    case Bear(t) =>
      RenderPin(own, g, up, t);
      RenderFind(own, g, up, t);
      if Find(own, up, t).Some? {
        RenderAdd(Pin(own, up, t), g, next, Find(own, up, t).value);
      }
    case BearBare(t) =>
    case Die(t, kids) =>
      RenderPinAll(own, g, up, kids);
      RenderRemove(PinAll(own, up, kids), g, t);
    case Idle =>
  }
}

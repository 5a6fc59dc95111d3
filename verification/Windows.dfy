/**
 What a fork that is under way relies on survives every step that other tasks may take
 before it returns.
 */
module Windows {
  import opened Ancestry
  import opened Slots
  import opened Machine

  lemma KeptBySet(own: map<TaskId, Addr>, up: Parents, c: TaskId, w: Window, t: TaskId, a: Addr)
    requires Rooted(up) && WindowOk(own, up, c, w)
    requires t != c && t != w.parent && (w.link.None? ==> t !in Walk(own, up, w.parent))
    ensures WindowOk(own[t := a], up, c, w)
  {
    if w.link.None? {
      ChooseElsewhere(own, up, t, a, w.parent);
    }
  }

  lemma KeptByReset(own: map<TaskId, Addr>, up: Parents, c: TaskId, w: Window, t: TaskId)
    requires Rooted(up) && WindowOk(own, up, c, w) && t != w.parent
    ensures WindowOk(own - {t}, up, c, w)
  {
    if w.link.None? {
      ForgetNothing(own, up, t, w.parent);
    }
  }

  lemma KeptByPin(own: map<TaskId, Addr>, up: Parents, c: TaskId, w: Window, t: TaskId)
    requires Rooted(up) && WindowOk(own, up, c, w) && t in up
    ensures WindowOk(Pin(own, up, t), up, c, w)
  {
    PinInvisible(own, up, t, w.parent);
    if w.parent in own {
      PinKeeps(own, up, t, w.parent);
    }
    if c in own {
      PinKeeps(own, up, t, c);
    } else if c in Pin(own, up, t) {
      WalkAgrees(own, up, t, c);
    }
  }

  lemma {:induction false} KeptByPinAll(own: map<TaskId, Addr>, up: Parents, c: TaskId, w: Window, kids: seq<TaskId>)
    requires Rooted(up) && WindowOk(own, up, c, w) && forall k :: k in kids ==> k in up
    ensures WindowOk(PinAll(own, up, kids), up, c, w)
    decreases |kids|
  {
    if kids != [] {
      KeptByPin(own, up, c, w, kids[0]);
      KeptByPinAll(Pin(own, up, kids[0]), up, c, w, kids[1..]);
    }
  }

  lemma KeptByBirth(own: map<TaskId, Addr>, own': map<TaskId, Addr>, up: Parents, c: TaskId, w: Window,
                    n: TaskId, p: TaskId)
    requires Rooted(up) && WindowOk(own, up, c, w)
    requires p in up && n !in up && p < n && n != c && own' - {n} == own - {n}
    ensures Rooted(up[n := p]) && WindowOk(own', up[n := p], c, w)
  {
    BirthElsewhere(own, own', up, n, p, w.parent);
    assert forall u :: u != n ==> (u in own <==> u in own - {n}) && (u in own' <==> u in own' - {n});
    assert c in own' ==> own'[c] == (own' - {n})[c] == (own - {n})[c] == own[c];
  }

  lemma KeptByExit(own: map<TaskId, Addr>, up: Parents, c: TaskId, w: Window, e: TaskId, kids: seq<TaskId>)
    requires Rooted(up) && WindowOk(own, up, c, w)
    requires e in up && e != INIT && e != w.parent
    requires forall k :: k in kids ==> k in up
    requires forall k :: k in up && k != INIT && Parent(up, k) == e ==> k in kids
    ensures WindowOk(PinAll(own, up, kids) - {e}, Reparent(up, e), c, w)
  {
    KeptByPinAll(own, up, c, w, kids);
    ExitInvisible(own, up, e, kids, w.parent);
  }

  lemma KeptByVanish(own: map<TaskId, Addr>, up: Parents, c: TaskId, w: Window, e: TaskId)
    requires Rooted(up) && WindowOk(own, up, c, w) && e in up && e != INIT && e != w.parent
    ensures WindowOk(own - {e}, Reparent(up, e), c, w)
  {
    if w.link.None? {
      GoneNothing(own, up, e, w.parent);
    }
  }

  /** Entering a fork: the lookup has left the answer in the parent's own slot. */
  lemma Opened(own: map<TaskId, Addr>, up: Parents, t: TaskId, n: TaskId, pid: nat)
    requires Rooted(up) && t in up && n !in up && t < n && n !in own
    requires n !in Pin(own, up, t)
    ensures Rooted(up[n := t])
    ensures WindowOk(Pin(own, up, t), up[n := t], n, Window(t, Find(own, up, t), pid))
  {
    var pinned := Pin(own, up, t);
    PinInvisible(own, up, t, t);
    BirthElsewhere(pinned, pinned, up, n, t, t);
    if Find(own, up, t).Some? {
      PinOwns(own, up, t);
    }
  }

  lemma KeptByReturn(own: map<TaskId, Addr>, up: Parents, c: TaskId, w: Window, d: TaskId, v: Window)
    requires Rooted(up) && WindowOk(own, up, c, w) && WindowOk(own, up, d, v) && c != d
    requires d in up && v.link.Some?
    ensures WindowOk(own[d := v.link.value], up, c, w)
  {
    var extra: map<TaskId, Addr> := map[d := v.link.value];
    assert Mirrors(own, up, extra);
    OverlayFind(own, up, extra, w.parent);
    assert own[d := v.link.value] == own + extra;
  }

  lemma AllKeptByExit(own: map<TaskId, Addr>, up: Parents, pend: map<TaskId, Window>, e: TaskId, kids: seq<TaskId>)
    requires Rooted(up) && AllOk(own, up, pend)
    requires e in up && e != INIT && forall c :: c in pend ==> pend[c].parent != e
    requires forall k :: k in kids ==> k in up
    requires forall k :: k in up && k != INIT && Parent(up, k) == e ==> k in kids
    ensures AllOk(PinAll(own, up, kids) - {e}, Reparent(up, e), pend)
  {
    forall c | c in pend ensures WindowOk(PinAll(own, up, kids) - {e}, Reparent(up, e), c, pend[c]) {
      KeptByExit(own, up, c, pend[c], e, kids);
    }
  }

  /** An exit without the hook may take links from others, but from nobody a fork relies on. */
  lemma AllKeptByVanish(own: map<TaskId, Addr>, up: Parents, pend: map<TaskId, Window>, e: TaskId)
    requires Rooted(up) && AllOk(own, up, pend)
    requires e in up && e != INIT && forall c :: c in pend ==> pend[c].parent != e
    ensures AllOk(own - {e}, Reparent(up, e), pend)
  {
    forall c | c in pend ensures WindowOk(own - {e}, Reparent(up, e), c, pend[c]) {
      KeptByVanish(own, up, c, pend[c], e);
    }
  }

  lemma AllKeptByPin(own: map<TaskId, Addr>, up: Parents, pend: map<TaskId, Window>, t: TaskId)
    requires Rooted(up) && AllOk(own, up, pend) && t in up
    ensures AllOk(Pin(own, up, t), up, pend)
  {
    forall c | c in pend ensures WindowOk(Pin(own, up, t), up, c, pend[c]) {
      KeptByPin(own, up, c, pend[c], t);
    }
  }

  lemma AllKeptByBirth(own: map<TaskId, Addr>, own': map<TaskId, Addr>, up: Parents, pend: map<TaskId, Window>,
                       n: TaskId, p: TaskId)
    requires Rooted(up) && AllOk(own, up, pend) && p in up && n !in up && p < n && n !in pend
    requires own' == own || (n in own' && own' == own[n := own'[n]])
    ensures Rooted(up[n := p]) && AllOk(own', up[n := p], pend)
  {
    BirthRooted(up, n, p);
    assert own' - {n} == own - {n};
    forall c | c in pend ensures WindowOk(own', up[n := p], c, pend[c]) {
      KeptByBirth(own, own', up, c, pend[c], n, p);
    }
  }

  lemma AllKeptByEnter(own: map<TaskId, Addr>, up: Parents, pend: map<TaskId, Window>, n: TaskId, p: TaskId, pid: nat)
    requires Rooted(up) && AllOk(own, up, pend) && p in up && n !in up && p < n && n !in pend
    requires n !in own && n !in Pin(own, up, p)
    ensures Rooted(up[n := p])
    ensures AllOk(Pin(own, up, p), up[n := p], pend[n := Window(p, Find(own, up, p), pid)])
  {
    AllKeptByPin(own, up, pend, p);
    AllKeptByBirth(Pin(own, up, p), Pin(own, up, p), up, pend, n, p);
    Opened(own, up, p, n, pid);
  }

  lemma AllKeptByReturn(own: map<TaskId, Addr>, up: Parents, pend: map<TaskId, Window>, c: TaskId)
    requires Rooted(up) && AllOk(own, up, pend) && c in pend
    ensures AllOk(own, up, pend - {c})
    ensures c in up && pend[c].link.Some? ==> AllOk(own[c := pend[c].link.value], up, pend - {c})
  {
    if c in up && pend[c].link.Some? {
      forall d | d in pend && d != c ensures WindowOk(own[c := pend[c].link.value], up, d, pend[d]) {
        KeptByReturn(own, up, d, pend[d], c, pend[c]);
      }
    }
  }
}

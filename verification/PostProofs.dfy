/** Whoever walks a selector list walks it alone, and it does not change under the walk. */
module PostProofs {
  import opened ChannelSystem
  import opened ChannelProofs

  predicate PostsOn(s: System, t: Tid, c: int) {
    t in s.threads && s.threads[t].Posting? && s.threads[t].chan == c
  }

  /** What is left of a walk is the end of the list. */
  predicate EndOf(todo: seq<Tid>, q: seq<Tid>) { |todo| <= |q| && todo == q[|q| - |todo|..] }

  ghost predicate WalksList(s: System, t: Tid, c: int)
    requires GoodChan(s, c) && PostsOn(s, t, c)
  {
    s.chans[c].posting && EndOf(s.threads[t].todo, s.chans[c].Selectors(s.threads[t].dir))
  }

  /** At most one thread posts for channel c; it holds select_list_mutex, and the semaphores it has yet to post
      are in the list. */
  ghost predicate PostsSafely(s: System, c: int)
    requires GoodChan(s, c)
  {
    && (forall t {:trigger PostsOn(s, t, c)} :: PostsOn(s, t, c) ==> WalksList(s, t, c))
    && (forall t, u {:trigger PostsOn(s, t, c), PostsOn(s, u, c)} :: PostsOn(s, t, c) && PostsOn(s, u, c) ==> t == u)
  }

  /** What the step of thread t means for the walks over channel c's lists. */
  ghost predicate WalksOn(s: System, p: Pc, e: Effect, c: int)
    requires GoodChan(s, c)
  {
    && |e.chans| == |s.chans|
    && (e.pc.Posting? && e.pc.chan == c ==>
          && e.chans[c].posting && EndOf(e.pc.todo, e.chans[c].Selectors(e.pc.dir))
          && ((p.Posting? && p.chan == c) || !s.chans[c].posting))
    && (s.chans[c].posting && !(p.Posting? && p.chan == c) ==>
          e.chans[c].posting && e.chans[c].sendSelectors == s.chans[c].sendSelectors
          && e.chans[c].recvSelectors == s.chans[c].recvSelectors)
  }

  lemma AttemptWalks(s: System, p: Pc, c0: int, d0: Dir, v: Value, a: After, o: Pc, c: int)
    requires GoodChan(s, c0) && GoodChan(s, c) && !p.Posting? && !o.Posting?
    ensures WalksOn(s, p, Attempt(s, c0, d0, v, a, o), c)
  {
    if s.chans[c0].Possible(d0) {
      TransferKeepsLists(s.chans[c0], d0, v);
      hide EndOf;
    }
  }

  lemma TransferKeepsLists(ch: Channel, d: Dir, v: Value)
    requires ch.Possible(d)
    ensures var ch' := ch.Transfer(d, v);
      ch'.posting == ch.posting && ch'.sendSelectors == ch.sendSelectors && ch'.recvSelectors == ch.recvSelectors
  {
  }

  lemma PostWalks(s: System, c0: int, d0: Dir, todo: seq<Tid>, a: After, c: int)
    requires GoodChan(s, c0) && GoodChan(s, c)
    requires s.chans[c0].posting && EndOf(todo, s.chans[c0].Selectors(d0))
    ensures WalksOn(s, Posting(c0, d0, todo, a), Post(s, c0, d0, todo, a), c)
  {
    var q := s.chans[c0].Selectors(d0);
    if todo != [] { assert todo[1..] == q[|q| - |todo[1..]|..]; }
  }

  lemma GoWalks(s: System, t: Tid, p: Pc, c: int)
    requires t in s.threads && p == s.threads[t] && GoodPc(s, p) && GoodChan(s, c) && CanGo(s, t)
    requires p.Posting? ==> s.chans[p.chan].posting && EndOf(p.todo, s.chans[p.chan].Selectors(p.dir))
    ensures WalksOn(s, p, GoEffect(s, t, p), c)
  {
    hide Attempt, Post;
    match p
    case Entering(Blocking(c0, d0, v)) => AttemptWalks(s, p, c0, d0, v, Return(v), Asleep(c0, d0, v), c);
    case Entering(NonBlocking(c0, d0, v)) => AttemptWalks(s, p, c0, d0, v, Return(v), Done(WouldBlock), c);
    case Woken(c0, d0, v) =>
      AttemptWalks(s, p, c0, d0, v, Return(v), if s.chans[c0].closed then Done(ClosedError) else Asleep(c0, d0, v), c);
    case Posting(c0, d0, todo, a) => PostWalks(s, c0, d0, todo, a, c);
    case Scanning(es, i) =>
      if i < |es| { AttemptWalks(s, p, es[i].chan, es[i].dir, es[i].value, Finish(es, i, es[i].value), Scanning(es, i + 1), c); }
    case _ =>
  }

  lemma StepPostsSafely(s: System, st: Step, c: int)
    requires Typed(s) && Enabled(s, st) && GoodChan(s, c) && PostsSafely(s, c)
    requires forall c' {:trigger PostsSafely(s, c')} :: GoodChan(s, c') ==> PostsSafely(s, c')
    ensures GoodChan(Next(s, st), c) && PostsSafely(Next(s, st), c)
  {
    var s', e, t, p := Next(s, st), StepEffect(s, st), st.t, s.threads[st.t];
    EffectGood(s, st);
    WakeDisjoint(s, st);
    assert GoodPc(s, p);
    StepWalks(s, st, c);
    hide GoEffect, StepEffect, Enabled;
    assert PostsOn(s, t, c) <==> p.Posting? && p.chan == c;
    assert PostsOn(s, t, c) ==> WalksList(s, t, c);
    forall u | PostsOn(s', u, c) ensures WalksList(s', u, c) {
      assert u != t ==> PostsOn(s, u, c) && s'.threads[u] == s.threads[u] && WalksList(s, u, c);
    }
    forall u, v | PostsOn(s', u, c) && PostsOn(s', v, c) ensures u == v {
      assert u != t ==> PostsOn(s, u, c) && WalksList(s, u, c);
      assert v != t ==> PostsOn(s, v, c) && WalksList(s, v, c);
    }
  }

  lemma StepWalks(s: System, st: Step, c: int)
    requires Typed(s) && Enabled(s, st) && GoodChan(s, c)
    requires forall c' {:trigger PostsSafely(s, c')} :: GoodChan(s, c') ==> PostsSafely(s, c')
    ensures WalksOn(s, s.threads[st.t], StepEffect(s, st), c)
  {
    var t, p := st.t, s.threads[st.t];
    assert GoodPc(s, p);
    if st.Go? {
      if p.Posting? { assert PostsSafely(s, p.chan) && PostsOn(s, t, p.chan) && WalksList(s, t, p.chan); }
      hide GoEffect;
      GoWalks(s, t, p, c);
    }
  }
}

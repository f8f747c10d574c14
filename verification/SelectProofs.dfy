/** channel_select never sleeps through readiness; whole runs; and what a stuck state looks like. */
module SelectProofs {
  import opened ChannelSystem
  import opened ChannelProofs
  import opened PostProofs

  /** A thread in state p has yet to post to thread x for side d of channel c. */
  predicate Owes(p: Pc, x: Tid, c: int, d: Dir) {
    match p
    case ToPost(c', d', a) => c' == c && (d' == d || (a == Closing && d' == Recv && d == Send))
    case Posting(c', d', todo, a) => c' == c && ((d' == d && x in todo) || (a == Closing && d' == Recv && d == Send))
    case _ => false
  }

  ghost predicate Owed(s: System, x: Tid, c: int, d: Dir) {
    exists u {:trigger s.threads[u]} :: u in s.threads && Owes(s.threads[u], x, c, d)
  }

  /** If side d of channel c is ready, thread x's semaphore is up or is going to be. */
  ghost predicate Covered(s: System, x: Tid, c: int, d: Dir) {
    GoodChan(s, c) && (s.chans[c].Ready(d) ==> (x in s.sems && s.sems[x] > 0) || Owed(s, x, c, d))
  }

  function Entries(p: Pc): seq<Entry> {
    match p case Scanning(es, _) => es case SemWait(es) => es case _ => []
  }

  /** How many entries a select has found not ready since it last woke. */
  function Scanned(p: Pc): (n: nat)
    ensures n <= |Entries(p)|
  {
    match p case Scanning(es, i) => if i <= |es| then i else |es| case SemWait(es) => |es| case _ => 0
  }

  ghost predicate Attentive(s: System, x: Tid)
    requires x in s.threads
  {
    var p := s.threads[x];
    forall j {:trigger Entries(p)[j]} :: 0 <= j < Scanned(p) ==> Covered(s, x, Entries(p)[j].chan, Entries(p)[j].dir)
  }

  /** What a step of thread t means for the readiness that thread x waits for. */
  ghost predicate TellsSelector(s: System, p: Pc, e: Effect, x: Tid, c: int, d: Dir)
    requires GoodChan(s, c)
  {
    && |e.chans| == |s.chans|
    && (x in s.sems ==> x in e.sems && e.sems[x] >= s.sems[x])
    && (e.chans[c].Ready(d) && !s.chans[c].Ready(d) ==> Owes(e.pc, x, c, d))
    && (Owes(p, x, c, d) ==> Owes(e.pc, x, c, d) || (x in e.sems && e.sems[x] > 0))
  }

  lemma AttemptTells(s: System, p: Pc, c0: int, d0: Dir, v: Value, a: After, o: Pc, x: Tid, c: int, d: Dir)
    requires GoodChan(s, c0) && GoodChan(s, c) && (p.Entering? || p.Woken? || p.Scanning?) && Fifo(s.chans[c0])
    ensures TellsSelector(s, p, Attempt(s, c0, d0, v, a, o), x, c, d)
  {
    if s.chans[c0].Possible(d0) {
      TransferReadies(s.chans[c0], d0, v, d);
      assert !Owes(p, x, c, d);
      hide Fifo;
    } else {
      assert Attempt(s, c0, d0, v, a, o).chans == s.chans;
    }
  }

  /** A transfer makes ready at most the other side. */
  lemma TransferReadies(ch: Channel, d0: Dir, v: Value, d: Dir)
    requires ch.Possible(d0)
    ensures ch.Transfer(d0, v).Ready(d) && !ch.Ready(d) ==> d == Other(d0)
  {
  }

  lemma PostTells(s: System, c0: int, d0: Dir, todo: seq<Tid>, a: After, x: Tid, c: int, d: Dir)
    requires GoodChan(s, c0) && GoodChan(s, c) && x in s.sems
    ensures TellsSelector(s, Posting(c0, d0, todo, a), Post(s, c0, d0, todo, a), x, c, d)
  {
    if todo != [] { assert todo == [todo[0]] + todo[1..]; }
  }

  lemma GoTells(s: System, t: Tid, p: Pc, x: Tid, c: int, d: Dir)
    requires GoodPc(s, p) && GoodChan(s, c) && t != x && x in s.sems && x in s.chans[c].Selectors(d)
    requires forall k {:trigger s.chans[k]} :: 0 <= k < |s.chans| ==> Fifo(s.chans[k])
    ensures TellsSelector(s, p, GoEffect(s, t, p), x, c, d)
  {
    match p
    case Entering(Blocking(c0, d0, v)) => AttemptTells(s, p, c0, d0, v, Return(v), Asleep(c0, d0, v), x, c, d); hide Attempt;
    case Entering(NonBlocking(c0, d0, v)) => AttemptTells(s, p, c0, d0, v, Return(v), Done(WouldBlock), x, c, d); hide Attempt;
    case Woken(c0, d0, v) =>
      AttemptTells(s, p, c0, d0, v, Return(v), if s.chans[c0].closed then Done(ClosedError) else Asleep(c0, d0, v), x, c, d);
      hide Attempt;
    case Scanning(es, i) =>
      if i < |es| { AttemptTells(s, p, es[i].chan, es[i].dir, es[i].value, Finish(es, i, es[i].value), Scanning(es, i + 1), x, c, d); }
      hide Attempt;
    case Posting(c0, d0, todo, a) => PostTells(s, c0, d0, todo, a, x, c, d); hide Post;
    case _ =>
  }

  lemma StepTells(s: System, st: Step, x: Tid, c: int, d: Dir)
    requires Typed(s) && Enabled(s, st) && GoodChan(s, c) && st.t != x && x in s.sems && x in s.chans[c].Selectors(d)
    requires forall k {:trigger s.chans[k]} :: 0 <= k < |s.chans| ==> Fifo(s.chans[k])
    ensures TellsSelector(s, s.threads[st.t], StepEffect(s, st), x, c, d)
  {
    EffectGood(s, st);
    if st.Go? { GoTells(s, st.t, s.threads[st.t], x, c, d); }
    hide GoEffect;
  }

  /** Readiness stays covered for a selector that another thread's step concerns. */
  lemma CoveredKept(s: System, st: Step, x: Tid, c: int, d: Dir)
    requires Typed(s) && Enabled(s, st) && st.t != x && x in s.threads && Covered(s, x, c, d)
    requires x in s.chans[c].Selectors(d)
    requires forall k {:trigger s.chans[k]} :: 0 <= k < |s.chans| ==> Fifo(s.chans[k])
    ensures Covered(Next(s, st), x, c, d)
  {
    var s', e, t := Next(s, st), StepEffect(s, st), st.t;
    EffectGood(s, st);
    StepTells(s, st, x, c, d);
    hide StepEffect, Enabled;
    assert t in s'.threads && s'.threads[t] == e.pc;
    if s.chans[c].Ready(d) && Owed(s, x, c, d) {
      var u :| u in s.threads && Owes(s.threads[u], x, c, d);
      assert u in s'.threads;
    }
  }

  /** A waiting selector is registered for each of its entries. */
  lemma WaitingIsListed(s: System, x: Tid, j: nat)
    requires x in s.threads && j < Scanned(s.threads[x])
    requires var en := Entries(s.threads[x])[j]; GoodChan(s, en.chan) && ListedRight(s, en.chan, en.dir, x)
    ensures var en := Entries(s.threads[x])[j]; x in s.chans[en.chan].Selectors(en.dir)
  {
    var es := Entries(s.threads[x]);
    CountAt(es, j);
  }

  lemma {:induction false} CountAt(es: seq<Entry>, j: nat)
    requires j < |es|
    ensures Count(es, es[j].chan, es[j].dir) >= 1
  {
    if j > 0 { CountAt(es[1..], j - 1); }
  }

  lemma OwnScan(s: System, x: Tid, p: Pc, j: nat)
    requires Typed(s) && x in s.threads && p == s.threads[x] && GoodPc(s, p) && Attentive(s, x)
    requires j < Scanned(GoEffect(s, x, p).pc)
    ensures var e := GoEffect(s, x, p); var en := Entries(e.pc)[j];
      && p.Scanning? && e.chans == s.chans && e.sems == s.sems && e.wake == {} && Entries(e.pc) == Entries(p)
      && GoodChan(s, en.chan) && (j < Scanned(p) || !s.chans[en.chan].Ready(en.dir))
  {
  }

  lemma StepAttentive(s: System, st: Step, x: Tid)
    requires Typed(s) && Enabled(s, st) && x in s.threads && Attentive(s, x)
    requires forall k {:trigger s.chans[k]} :: 0 <= k < |s.chans| ==> Fifo(s.chans[k])
    requires forall c, d {:trigger ListedRight(s, c, d, x)} :: GoodChan(s, c) ==> ListedRight(s, c, d, x)
    ensures x in Next(s, st).threads && Attentive(Next(s, st), x)
  {
    var s', e := Next(s, st), StepEffect(s, st);
    var p, p' := s.threads[x], s'.threads[x];
    EffectGood(s, st);
    forall j {:trigger Entries(p')[j]} | 0 <= j < Scanned(p')
      ensures Covered(s', x, Entries(p')[j].chan, Entries(p')[j].dir)
    {
      if x != st.t {
        OthersScan(s, st, x);
        var en := Entries(p)[j];
        assert Covered(s, x, en.chan, en.dir) && ListedRight(s, en.chan, en.dir, x);
        WaitingIsListed(s, x, j);
        CoveredKept(s, st, x, en.chan, en.dir);
      } else {
        OwnStepCovered(s, st, j);
      }
    }
  }

  lemma OthersScan(s: System, st: Step, x: Tid)
    requires Typed(s) && Enabled(s, st) && x in s.threads && x != st.t
    ensures x in Next(s, st).threads
    ensures var p, p' := s.threads[x], Next(s, st).threads[x]; Scanned(p') == Scanned(p) && Entries(p') == Entries(p)
  {
    hide StepEffect, Enabled;
  }

  lemma OwnStepCovered(s: System, st: Step, j: nat)
    requires Typed(s) && Enabled(s, st) && st.t in s.threads && Attentive(s, st.t)
    requires j < Scanned(StepEffect(s, st).pc)
    ensures var en := Entries(StepEffect(s, st).pc)[j]; Covered(Next(s, st), st.t, en.chan, en.dir)
  {
    var x, p, s', e := st.t, s.threads[st.t], Next(s, st), StepEffect(s, st);
    EffectGood(s, st);
    assert st.Go? by { if !st.Go? { hide GoEffect; } }
    OwnScan(s, x, p, j);
    hide GoEffect;
    var en := Entries(e.pc)[j];
    if j < Scanned(p) {
      assert Covered(s, x, Entries(p)[j].chan, Entries(p)[j].dir);
      if s.chans[en.chan].Ready(en.dir) && Owed(s, x, en.chan, en.dir) {
        var u :| u in s.threads && Owes(s.threads[u], x, en.chan, en.dir);
        assert u in s'.threads && u != x && s'.threads[u] == s.threads[u];
      }
    }
  }

  // ---------- The whole invariant, over every run ----------

  ghost predicate ChannelInv(s: System, c: int)
    requires GoodChan(s, c)
  {
    && Fifo(s.chans[c]) && PosterKnown(s, c)
    && NoLostWakeup(s, c, Send) && NoLostWakeup(s, c, Recv)
    && ClosedWakes(s, c, Send) && ClosedWakes(s, c, Recv)
  }

  ghost predicate Inv(s: System) {
    && Typed(s)
    && (forall c {:trigger ChannelInv(s, c)} :: GoodChan(s, c) ==> ChannelInv(s, c))
    && (forall c, d, t {:trigger ListedRight(s, c, d, t)} :: GoodChan(s, c) ==> ListedRight(s, c, d, t))
    && (forall t {:trigger Attentive(s, t)} :: t in s.threads ==> Attentive(s, t))
    && (forall c {:trigger PostsSafely(s, c)} :: GoodChan(s, c) ==> PostsSafely(s, c))
  }

  lemma StartInv(s: System)
    requires Start(s)
    ensures Inv(s)
  {
    forall c | GoodChan(s, c) ensures ChannelInv(s, c) {
      assert s.chans[c].capacity > 0;
      forall t, d | t in s.threads ensures !IsAsleep(s.threads[t], c, d) { assert s.threads[t] == Idle; }
      assert Sleepers(s, c, Send) == {} && Sleepers(s, c, Recv) == {};
    }
    forall c, d, t | GoodChan(s, c) ensures ListedRight(s, c, d, t) {
      assert s.chans[c].capacity > 0 && s.chans[c].Selectors(d) == [];
    }
  }

  lemma ChannelStepInv(s: System, st: Step, c: int)
    requires Inv(s) && Enabled(s, st) && GoodChan(s, c)
    ensures GoodChan(Next(s, st), c) && ChannelInv(Next(s, st), c)
  {
    hide Next, Enabled, Fifo, PosterKnown, NoLostWakeup, ClosedWakes;
    assert ChannelInv(s, c);
    StepFifo(s, st, c);
    StepPosterKnown(s, st, c);
    StepNoLostWakeup(s, st, c, Send);
    StepNoLostWakeup(s, st, c, Recv);
    StepClosedWakes(s, st, c, Send);
    StepClosedWakes(s, st, c, Recv);
  }

  lemma StepInv(s: System, st: Step)
    requires Inv(s) && Enabled(s, st)
    ensures Inv(Next(s, st))
  {
    hide Next, Enabled, ChannelInv, ListedRight, Attentive, PostsSafely;
    var s' := Next(s, st);
    NextTyped(s, st);
    forall c | GoodChan(s', c) ensures ChannelInv(s', c) { ChannelStepInv(s, st, c); }
    forall c, d, t | GoodChan(s', c) ensures ListedRight(s', c, d, t) { StepListedRight(s, st, c, d, t); }
    forall c | GoodChan(s', c) ensures PostsSafely(s', c) {
      assert PostsSafely(s, c);
      StepPostsSafely(s, st, c);
    }
    forall t | t in s'.threads ensures Attentive(s', t) {
      assert Attentive(s, t);
      AllFifo(s);
      StepAttentive(s, st, t);
    }
  }

  lemma AllFifo(s: System)
    requires Inv(s)
    ensures forall k {:trigger s.chans[k]} :: 0 <= k < |s.chans| ==> Fifo(s.chans[k])
  {
    forall k {:trigger s.chans[k]} | 0 <= k < |s.chans| ensures Fifo(s.chans[k]) { assert ChannelInv(s, k); }
  }

  /** A run: the states from the start on, each an enabled step after the one before. */
  ghost predicate IsRun(states: seq<System>, steps: seq<Step>)
    decreases |steps|
  {
    && |states| == |steps| + 1
    && (if steps == [] then Start(states[0])
        else
          var k := |steps| - 1;
          && IsRun(states[..k + 1], steps[..k])
          && Typed(states[k]) && Enabled(states[k], steps[k]) && states[k + 1] == Next(states[k], steps[k]))
  }

  /** Every interleaving of sends, receives, closes and selects, spurious wakeups included, keeps it all. */
  lemma {:induction false} RunInv(states: seq<System>, steps: seq<Step>)
    requires IsRun(states, steps)
    ensures Inv(states[|steps|])
    decreases |steps|
  {
    if steps == [] { StartInv(states[0]); }
    else {
      var k := |steps| - 1;
      RunInv(states[..k + 1], steps[..k]);
      assert states[..k + 1][k] == states[k];
      StepInv(states[k], steps[k]);
    }
  }

  /** A send or receive that enters a closed channel gets CLOSED_ERROR and leaves the channel alone. */
  lemma EnteringClosed(s: System, t: Tid)
    requires Typed(s) && t in s.threads && s.threads[t].Entering? && !s.threads[t].call.Select? && GoodPc(s, s.threads[t])
    requires s.chans[s.threads[t].call.chan].closed
    ensures Enabled(s, Go(t)) && t in Next(s, Go(t)).threads
    ensures Next(s, Go(t)).threads[t] == Done(ClosedError) && Next(s, Go(t)).chans == s.chans
  {
  }

  /** Once close has broadcast to a side, nobody sleeps there, and nobody will. */
  lemma ClosedForGood(s: System, st: Step, c: int, d: Dir)
    requires Inv(s) && Enabled(s, st) && GoodChan(s, c) && s.chans[c].closed && !BroadcastDue(s, c, d)
    ensures Sleepers(s, c, d) == {}
    ensures var s' := Next(s, st);
      GoodChan(s', c) && s'.chans[c].closed && !BroadcastDue(s', c, d) && Sleepers(s', c, d) == {}
  {
    assert ChannelInv(s, c);
    assert ClosedWakes(s, c, d) by { if d == Send { } }
    ChannelStepInv(s, st, c);
    StepFifo(s, st, c);
    var s', e := Next(s, st), StepEffect(s, st);
    NoNewBroadcast(s, st, c, d);
    forall u | u in s'.threads ensures !WillBroadcast(s'.threads[u], c, d) { assert u in s.threads; }
    assert ClosedWakes(s', c, d) by { if d == Send { } }
  }

  lemma NoNewBroadcast(s: System, st: Step, c: int, d: Dir)
    requires Typed(s) && Enabled(s, st) && GoodChan(s, c) && s.chans[c].closed && !BroadcastDue(s, c, d)
    ensures !WillBroadcast(StepEffect(s, st).pc, c, d)
  {
    var p := s.threads[st.t];
    assert GoodPc(s, p) && !WillBroadcast(p, c, d);
  }

  // ---------- Stuck states ----------

  /** Nothing can happen but new calls and spurious wakeups. */
  ghost predicate Stuck(s: System) {
    forall st: Step :: (st.Go? || st.Signal?) ==> !Enabled(s, st)
  }

  /** In a stuck state every thread is between calls, asleep on a condition, or blocked on its semaphore. */
  lemma StuckThreads(s: System, t: Tid)
    requires Inv(s) && Stuck(s) && t in s.threads
    ensures var p := s.threads[t]; p.Idle? || p.Done? || p.Asleep? || (p.SemWait? && s.sems[t] == 0)
  {
    var p := s.threads[t];
    assert GoodPc(s, p) && !Enabled(s, Go(t));
    if p.ToSignal? { assert Enabled(s, Signal(t, Sleepers(s, p.chan, p.dir))); }
    if p.ToPost? { NobodyPosts(s, p.chan); }
    if p.Registering? && p.i < |p.entries| { NobodyPosts(s, p.entries[p.i].chan); }
    if p.CleaningUp? && p.i < |p.entries| { NobodyPosts(s, p.entries[p.i].chan); }
  }

  lemma NobodyPosts(s: System, c: int)
    requires Inv(s) && Stuck(s) && GoodChan(s, c)
    ensures !s.chans[c].posting
  {
    assert ChannelInv(s, c);
    if s.chans[c].posting {
      var u :| u in s.threads && s.threads[u].Posting? && s.threads[u].chan == c;
      assert Enabled(s, Go(u));
    }
  }

  /** A stuck state is justified: a receiver sleeps only on an empty channel, a sender only on a full one,
      nobody on a closed one, so never a sender and a receiver on the same channel. */
  lemma StuckSleepersJustified(s: System, c: int, d: Dir)
    requires Inv(s) && Stuck(s) && GoodChan(s, c) && Sleepers(s, c, d) != {}
    ensures !s.chans[c].Possible(d) && !s.chans[c].closed && Sleepers(s, c, Other(d)) == {}
  {
    assert ChannelInv(s, c);
    StuckHelpless(s, c, d);
    StuckHelpless(s, c, Other(d));
    assert NoLostWakeup(s, c, d) && ClosedWakes(s, c, d) by { if d == Send { } }
    assert NoLostWakeup(s, c, Other(d)) by { if d == Send { } }
  }

  lemma StuckHelpless(s: System, c: int, d: Dir)
    requires Inv(s) && Stuck(s)
    ensures Helpers(s, c, d) == {} && !BroadcastDue(s, c, d)
  {
    forall t | t in s.threads ensures !Helps(s.threads[t], c, d) && !WillBroadcast(s.threads[t], c, d) { StuckThreads(s, t); }
  }

  /** And a select is blocked only when none of its entries is ready, closed ones included. */
  lemma StuckSelectJustified(s: System, t: Tid, j: nat)
    requires Inv(s) && Stuck(s) && t in s.threads && s.threads[t].SemWait? && j < |s.threads[t].entries|
    ensures var en := s.threads[t].entries[j]; GoodChan(s, en.chan) && !s.chans[en.chan].Ready(en.dir)
  {
    StuckThreads(s, t);
    var en := Entries(s.threads[t])[j];
    assert Attentive(s, t) && Covered(s, t, en.chan, en.dir);
    if s.chans[en.chan].Ready(en.dir) {
      var u :| u in s.threads && Owes(s.threads[u], t, en.chan, en.dir);
      StuckThreads(s, u);
    }
  }

  /** A thread that is not inside channel_select is on no selector list. */
  lemma ReturnedIsUnlisted(s: System, t: Tid, c: int, d: Dir)
    requires Inv(s) && GoodChan(s, c) && t in s.threads && (s.threads[t].Idle? || s.threads[t].Done?)
    ensures t !in s.chans[c].Selectors(d)
  {
    assert ListedRight(s, c, d, t);
  }

  /** Whom a walk has yet to post to is inside channel_select: no post goes to a semaphore whose select has
      returned. */
  lemma NoPostAfterReturn(s: System, t: Tid, i: nat)
    requires Inv(s) && t in s.threads && s.threads[t].Posting? && i < |s.threads[t].todo|
    ensures var x := s.threads[t].todo[i];
      && x in s.threads && !s.threads[x].Idle? && !s.threads[x].Done? && Registered(s.threads[x], s.threads[t].chan, s.threads[t].dir) > 0
  {
    var p := s.threads[t];
    assert GoodPc(s, p) && PostsSafely(s, p.chan) && PostsOn(s, t, p.chan) && WalksList(s, t, p.chan);
    var q, x := s.chans[p.chan].Selectors(p.dir), p.todo[i];
    assert x == q[|q| - |p.todo| + i] && x in multiset(q);
    assert ListedRight(s, p.chan, p.dir, x);
  }
}

/** What every interleaving of calls on buffered channels keeps. */
module ChannelProofs {
  import opened Basics
  import opened ChannelSystem

  // ---------- First in, first out ----------

  /** What was sent is what was received followed by what is buffered, and the buffer is within capacity. */
  ghost predicate Fifo(ch: Channel) {
    ch.sent == ch.received + ch.buffer && |ch.buffer| <= ch.capacity && ch.capacity > 0
  }

  /** The change one step makes to a channel: histories grow, a closed channel stays closed. */
  ghost predicate ChannelStep(ch: Channel, ch': Channel) {
    && ch'.capacity == ch.capacity && (ch.closed ==> ch'.closed)
    && ch.sent <= ch'.sent && ch.received <= ch'.received
  }

  lemma TransferFifo(ch: Channel, d: Dir, v: Value)
    requires Fifo(ch) && ch.Possible(d)
    ensures Fifo(ch.Transfer(d, v)) && ChannelStep(ch, ch.Transfer(d, v))
  {
    if d == Recv { assert ch.buffer == [ch.buffer[0]] + ch.buffer[1..]; }
  }

  lemma AttemptFifo(s: System, c: int, d: Dir, v: Value, a: After, o: Pc, k: int)
    requires GoodChan(s, c) && GoodChan(s, k) && Fifo(s.chans[k])
    ensures var e := Attempt(s, c, d, v, a, o);
      |e.chans| == |s.chans| && Fifo(e.chans[k]) && ChannelStep(s.chans[k], e.chans[k])
  {
    if c == k && s.chans[c].Possible(d) { TransferFifo(s.chans[c], d, v); }
  }

  lemma StepFifo(s: System, st: Step, k: int)
    requires Typed(s) && Enabled(s, st) && GoodChan(s, k) && Fifo(s.chans[k])
    ensures var s' := Next(s, st); GoodChan(s', k) && Fifo(s'.chans[k]) && ChannelStep(s.chans[k], s'.chans[k])
  {
    EffectGood(s, st);
    if st.Go? {
      hide GoEffect;
      GoFifo(s, st.t, s.threads[st.t], k);
    }
  }

  lemma GoFifo(s: System, t: Tid, p: Pc, k: int)
    requires GoodPc(s, p) && GoodChan(s, k) && Fifo(s.chans[k])
    ensures var e := GoEffect(s, t, p); |e.chans| == |s.chans| && Fifo(e.chans[k]) && ChannelStep(s.chans[k], e.chans[k])
  {
    match p
    case Entering(Blocking(c, d, v)) => AttemptFifo(s, c, d, v, Return(v), Asleep(c, d, v), k);
    case Entering(NonBlocking(c, d, v)) => AttemptFifo(s, c, d, v, Return(v), Done(WouldBlock), k);
    case Woken(c, d, v) => AttemptFifo(s, c, d, v, Return(v), if s.chans[c].closed then Done(ClosedError) else Asleep(c, d, v), k);
    case Scanning(es, i) =>
      if i < |es| { AttemptFifo(s, es[i].chan, es[i].dir, es[i].value, Finish(es, i, es[i].value), Scanning(es, i + 1), k); }
    case _ =>
  }

  // ---------- No lost wakeups ----------

  /** Items for receivers, free slots for senders. */
  function Available(ch: Channel, d: Dir): int { if d == Recv then |ch.buffer| else ch.capacity - |ch.buffer| }

  /** A thread that will retry side d of channel c, or has yet to signal its condition. */
  predicate Helps(p: Pc, c: int, d: Dir) {
    match p
    case Woken(c', d', _) => c' == c && d' == d
    case ToPost(c', d', a) => c' == c && d' == d && a != Closing
    case Posting(c', d', _, a) => c' == c && d' == d && a != Closing
    case ToSignal(c', d', a) => c' == c && d' == d && a != Closing
    case _ => false
  }

  function Helpers(s: System, c: int, d: Dir): set<Tid> {
    set t | t in s.threads && Helps(s.threads[t], c, d)
  }

  /** Sleepers are there only while everything available is spoken for. */
  ghost predicate NoLostWakeup(s: System, c: int, d: Dir)
    requires GoodChan(s, c)
  {
    Sleepers(s, c, d) != {} ==> Available(s.chans[c], d) <= |Helpers(s, c, d)|
  }

  function Bit(b: bool): int { if b then 1 else 0 }

  /** What the step of thread t means for side d of channel c, apart from counting. */
  ghost predicate KeepsPace(s: System, t: Tid, e: Effect, c: int, d: Dir)
    requires t in s.threads && GoodChan(s, c) && c < |e.chans|
  {
    var S := Sleepers(s, c, d);
    var before, after := Available(s.chans[c], d), Available(e.chans[c], d);
    || after <= 0
    || (!IsAsleep(e.pc, c, d) && S <= e.wake)
    || (!IsAsleep(e.pc, c, d) &&
        after - before <= Bit(Helps(e.pc, c, d)) - Bit(Helps(s.threads[t], c, d)) + Bit(S * e.wake != {}))
  }

  lemma AttemptKeepsPace(s: System, t: Tid, c: int, d: Dir, v: Value, a: After, o: Pc, k: int, side: Dir)
    requires t in s.threads && GoodChan(s, c) && GoodChan(s, k) && Fifo(s.chans[k]) && a != Closing
    requires (o == Asleep(c, d, v) || o.Done? || o.Scanning?)
    requires Helps(s.threads[t], k, side) ==> k == c && side == d
    ensures var e := Attempt(s, c, d, v, a, o); |e.chans| == |s.chans| && KeepsPace(s, t, e, k, side)
  {
  }

  lemma StepKeepsPace(s: System, st: Step, k: int, side: Dir)
    requires Typed(s) && Enabled(s, st) && GoodChan(s, k) && Fifo(s.chans[k])
    ensures var e := StepEffect(s, st); |e.chans| == |s.chans| && KeepsPace(s, st.t, e, k, side)
  {
    var p, t := s.threads[st.t], st.t;
    EffectGood(s, st);
    match st
    case Go(_) => GoKeepsPace(s, t, p, k, side);
    case Signal(_, woken) => if Helps(p, k, side) { assert Sleepers(s, k, side) * woken == woken; }
    case _ =>
  }

  lemma GoKeepsPace(s: System, t: Tid, p: Pc, k: int, side: Dir)
    requires t in s.threads && p == s.threads[t] && GoodPc(s, p) && CanGo(s, t) && GoodChan(s, k) && Fifo(s.chans[k])
    ensures var e := GoEffect(s, t, p); |e.chans| == |s.chans| && KeepsPace(s, t, e, k, side)
  {
    match p
    case Entering(Blocking(c, d, v)) => AttemptKeepsPace(s, t, c, d, v, Return(v), Asleep(c, d, v), k, side);
    case Entering(NonBlocking(c, d, v)) => AttemptKeepsPace(s, t, c, d, v, Return(v), Done(WouldBlock), k, side);
    case Woken(c, d, v) =>
      AttemptKeepsPace(s, t, c, d, v, Return(v), if s.chans[c].closed then Done(ClosedError) else Asleep(c, d, v), k, side);
    case Scanning(es, i) =>
      if i < |es| { AttemptKeepsPace(s, t, es[i].chan, es[i].dir, es[i].value, Finish(es, i, es[i].value), Scanning(es, i + 1), k, side); }
    case _ =>
  }

  lemma StepNoLostWakeup(s: System, st: Step, c: int, d: Dir)
    requires Typed(s) && Enabled(s, st) && GoodChan(s, c) && Fifo(s.chans[c]) && NoLostWakeup(s, c, d)
    ensures var s' := Next(s, st); GoodChan(s', c) && NoLostWakeup(s', c, d)
  {
    StepKeepsPace(s, st, c, d);
    WakeDisjoint(s, st);
    hide StepEffect, Enabled;
    Counted(s, st.t, StepEffect(s, st), c, d);
  }

  /** The acting thread is not among those it wakes. */
  lemma WakeDisjoint(s: System, st: Step)
    requires Typed(s) && Enabled(s, st)
    ensures var e := StepEffect(s, st); st.t !in e.wake && (s.threads[st.t].Asleep? ==> e.wake == {})
    ensures forall u :: u in StepEffect(s, st).wake ==> u in s.threads && s.threads[u].Asleep?
  {
    EffectGood(s, st);
  }

  lemma Counted(s: System, t: Tid, e: Effect, c: int, d: Dir)
    requires t in s.threads && GoodChan(s, c) && |e.chans| == |s.chans| && t !in e.wake
    requires NoLostWakeup(s, c, d) && KeepsPace(s, t, e, c, d)
    ensures GoodChan(Apply(s, t, e), c) && NoLostWakeup(Apply(s, t, e), c, d)
  {
    var s' := Apply(s, t, e);
    HelpersAfter(s, t, e, c, d);
    if !IsAsleep(e.pc, c, d) { SleepersAfter(s, t, e, c, d); }
  }

  lemma HelpersAfter(s: System, t: Tid, e: Effect, c: int, d: Dir)
    requires t in s.threads && t !in e.wake
    ensures |Helpers(Apply(s, t, e), c, d)| >= |Helpers(s, c, d)|
      - Bit(Helps(s.threads[t], c, d)) + Bit(Helps(e.pc, c, d)) + Bit(Sleepers(s, c, d) * e.wake != {})
  {
    var H, W := Helpers(s, c, d), Sleepers(s, c, d) * e.wake;
    var H' := Helpers(Apply(s, t, e), c, d);
    forall u | u in H - {t} || u in W || (u == t && Helps(e.pc, c, d)) ensures u in H' { HelperStays(s, t, e, c, d, u); }
    SetCount(H, H', W, t, Helps(s.threads[t], c, d), Helps(e.pc, c, d));
  }

  lemma SetCount<X>(H: set<X>, H': set<X>, W: set<X>, t: X, b: bool, b': bool)
    requires t !in W && H !! W && (b <==> t in H) && H - {t} <= H' && W <= H' && (b' ==> t in H')
    ensures |H'| >= |H| - Bit(b) + Bit(b') + Bit(W != {})
  {
    var stay, now := H - {t}, if b' then {t} else {};
    SubsetSize(stay + W + now, H');
    ThreeParts(stay, W, now);
    if b { assert H == stay + {t}; } else { assert H == stay; }
  }

  lemma HelperStays(s: System, t: Tid, e: Effect, c: int, d: Dir, u: Tid)
    requires t in s.threads && t !in e.wake
    requires if u == t then Helps(e.pc, c, d) else u in Helpers(s, c, d) || u in Sleepers(s, c, d) * e.wake
    ensures u in Helpers(Apply(s, t, e), c, d)
  {
    assert u in s.threads && u in Apply(s, t, e).threads;
  }

  lemma ThreeParts<X>(a: set<X>, b: set<X>, c: set<X>)
    requires a !! b && a !! c && b !! c
    ensures |a + b + c| == |a| + |b| + |c|
  {
  }

  lemma SleepersAfter(s: System, t: Tid, e: Effect, c: int, d: Dir)
    requires t in s.threads && t !in e.wake && !IsAsleep(e.pc, c, d)
    ensures Sleepers(Apply(s, t, e), c, d) <= Sleepers(s, c, d) - e.wake
  {
    var s' := Apply(s, t, e);
    forall u | u in Sleepers(s', c, d) ensures u in Sleepers(s, c, d) && u !in e.wake { assert u in s'.threads; }
  }

  // ---------- Close ----------

  /** A thread inside channel_close that has yet to broadcast to side d. */
  predicate WillBroadcast(p: Pc, c: int, d: Dir) {
    match p
    case ToPost(c', _, a) => c' == c && a == Closing
    case Posting(c', _, _, a) => c' == c && a == Closing
    case ToBroadcast(c', d') => c' == c && (d' == Recv || d' == d)
    case _ => false
  }

  ghost predicate BroadcastDue(s: System, c: int, d: Dir) {
    exists u :: u in s.threads && WillBroadcast(s.threads[u], c, d)
  }

  /** Once closed, whoever sleeps is going to be woken. */
  ghost predicate ClosedWakes(s: System, c: int, d: Dir)
    requires GoodChan(s, c)
  {
    s.chans[c].closed && Sleepers(s, c, d) != {} ==> BroadcastDue(s, c, d)
  }

  /** What a step does to the closing of channel c. */
  ghost predicate ClosesWell(s: System, t: Tid, e: Effect, c: int, d: Dir)
    requires t in s.threads && GoodChan(s, c) && c < |e.chans|
  {
    && (IsAsleep(e.pc, c, d) ==> !e.chans[c].closed)
    && (e.chans[c].closed && !s.chans[c].closed ==> WillBroadcast(e.pc, c, d))
    && (WillBroadcast(s.threads[t], c, d) ==> WillBroadcast(e.pc, c, d) || Sleepers(s, c, d) <= e.wake)
  }

  lemma AttemptClosesWell(s: System, c': int, d': Dir, v: Value, after: After, otherwise: Pc, c: int, d: Dir)
    requires GoodChan(s, c') && GoodChan(s, c)
    ensures var e := Attempt(s, c', d', v, after, otherwise);
      && |e.chans| == |s.chans| && e.chans[c].closed == s.chans[c].closed
      && (e.pc == otherwise || (e.pc.ToPost? && (e.pc.after == Closing <==> after == Closing)))
  {
  }

  lemma EnterClosesWell(s: System, t: Tid, call: Call, c: int, d: Dir)
    requires t in s.threads && s.threads[t] == Entering(call) && GoodCall(s, call) && GoodChan(s, c)
    ensures |Enter(s, t, call).chans| == |s.chans| && ClosesWell(s, t, Enter(s, t, call), c, d)
  {
    hide Attempt;
    match call
    case Blocking(c', d', v) => AttemptClosesWell(s, c', d', v, Return(v), Asleep(c', d', v), c, d);
    case NonBlocking(c', d', v) => AttemptClosesWell(s, c', d', v, Return(v), Done(WouldBlock), c, d);
    case _ =>
  }

  lemma PostClosesWell(s: System, t: Tid, c': int, d': Dir, todo: seq<Tid>, after: After, c: int, d: Dir)
    requires t in s.threads && s.threads[t] == Posting(c', d', todo, after) && GoodChan(s, c') && GoodChan(s, c)
    ensures var e := Post(s, c', d', todo, after); |e.chans| == |s.chans| && ClosesWell(s, t, e, c, d)
  {
  }

  lemma GoClosesWell(s: System, t: Tid, p: Pc, c: int, d: Dir)
    requires t in s.threads && p == s.threads[t] && GoodPc(s, p) && GoodChan(s, c)
    requires !p.Asleep? && !p.Idle? && !p.Done? && !p.ToSignal?
    ensures |GoEffect(s, t, p).chans| == |s.chans| && ClosesWell(s, t, GoEffect(s, t, p), c, d)
  {
    hide Attempt, Enter, Post;
    match p
    case Entering(call) => EnterClosesWell(s, t, call, c, d);
    case Woken(c', d', v) =>
      AttemptClosesWell(s, c', d', v, Return(v), if s.chans[c'].closed then Done(ClosedError) else Asleep(c', d', v), c, d);
    case Posting(c', d', todo, a) => PostClosesWell(s, t, c', d', todo, a, c, d);
    case Scanning(es, i) =>
      if i < |es| { AttemptClosesWell(s, es[i].chan, es[i].dir, es[i].value, Finish(es, i, es[i].value), Scanning(es, i + 1), c, d); }
    case _ =>
  }

  lemma StepClosedWakes(s: System, st: Step, c: int, d: Dir)
    requires Typed(s) && Enabled(s, st) && GoodChan(s, c) && ClosedWakes(s, c, d)
    ensures GoodChan(Next(s, st), c) && ClosedWakes(Next(s, st), c, d)
  {
    var s', e, t := Next(s, st), StepEffect(s, st), st.t;
    EffectGood(s, st);
    WakeDisjoint(s, st);
    StepClosesWell(s, st, c, d);
    hide StepEffect, Enabled;
    if s'.chans[c].closed && Sleepers(s', c, d) != {} {
      assert t in s'.threads && s'.threads[t] == e.pc;
      assert !IsAsleep(e.pc, c, d);
      SleepersAfter(s, t, e, c, d);
      if s.chans[c].closed {
        var u :| u in s.threads && WillBroadcast(s.threads[u], c, d);
        assert u in s'.threads && (u != t ==> s'.threads[u] == s.threads[u]);
      }
    }
  }

  lemma StepClosesWell(s: System, st: Step, c: int, d: Dir)
    requires Typed(s) && Enabled(s, st) && GoodChan(s, c)
    ensures |StepEffect(s, st).chans| == |s.chans| && ClosesWell(s, st.t, StepEffect(s, st), c, d)
  {
    var p := s.threads[st.t];
    assert GoodPc(s, p);
    if st.Go? {
      hide GoEffect;
      GoClosesWell(s, st.t, p, c, d);
    }
  }

  // ---------- The selector lists' mutex ----------

  /** Whoever holds select_list_mutex of channel c is walking a list. */
  ghost predicate PosterKnown(s: System, c: int)
    requires GoodChan(s, c)
  {
    s.chans[c].posting ==> exists u :: u in s.threads && s.threads[u].Posting? && s.threads[u].chan == c
  }

  lemma GoPosts(s: System, t: Tid, p: Pc, c: int)
    requires t in s.threads && p == s.threads[t] && GoodPc(s, p) && GoodChan(s, c)
    ensures var e := GoEffect(s, t, p);
      && |e.chans| == |s.chans|
      && (e.chans[c].posting && !s.chans[c].posting ==> e.pc.Posting? && e.pc.chan == c)
      && (e.chans[c].posting && p.Posting? && p.chan == c ==> e.pc.Posting? && e.pc.chan == c)
  {
  }

  lemma StepPosterKnown(s: System, st: Step, c: int)
    requires Typed(s) && Enabled(s, st) && GoodChan(s, c) && PosterKnown(s, c)
    ensures GoodChan(Next(s, st), c) && PosterKnown(Next(s, st), c)
  {
    var s', e, t := Next(s, st), StepEffect(s, st), st.t;
    EffectGood(s, st);
    WakeDisjoint(s, st);
    if st.Go? { GoPosts(s, t, s.threads[t], c); }
    hide GoEffect;
    if s'.chans[c].posting {
      assert t in s'.threads && s'.threads[t] == e.pc;
      if s.chans[c].posting {
        var u :| u in s.threads && s.threads[u].Posting? && s.threads[u].chan == c;
        assert u in s'.threads && (u != t ==> s'.threads[u] == s.threads[u]);
      }
    }
  }

  // ---------- Registration ----------

  function Count(es: seq<Entry>, c: int, d: Dir): nat {
    if es == [] then 0 else Bit(es[0].chan == c && es[0].dir == d) + Count(es[1..], c, d)
  }

  lemma {:induction false} CountSplit(es: seq<Entry>, fs: seq<Entry>, c: int, d: Dir)
    ensures Count(es + fs, c, d) == Count(es, c, d) + Count(fs, c, d)
  {
    if es == [] { assert es + fs == fs; }
    else { assert (es + fs)[1..] == es[1..] + fs; CountSplit(es[1..], fs, c, d); }
  }

  /** How often a thread in state p is registered on side d of channel c. */
  function Registered(p: Pc, c: int, d: Dir): nat {
    match p
    case Registering(es, i) => if i <= |es| then Count(es[..i], c, d) else 0
    case Scanning(es, _) => Count(es, c, d)
    case SemWait(es) => Count(es, c, d)
    case ToPost(_, _, Finish(es, _, _)) => Count(es, c, d)
    case Posting(_, _, _, Finish(es, _, _)) => Count(es, c, d)
    case ToSignal(_, _, Finish(es, _, _)) => Count(es, c, d)
    case CleaningUp(es, i, _) => if i <= |es| then Count(es[i..], c, d) else 0
    case _ => 0
  }

  /** Thread t is in the list exactly as often as its state says: on return from channel_select, not at all. */
  ghost predicate ListedRight(s: System, c: int, d: Dir, t: Tid)
    requires GoodChan(s, c)
  {
    multiset(s.chans[c].Selectors(d))[t] == if t in s.threads then Registered(s.threads[t], c, d) else 0
  }

  /** A step changes the lists for its own thread only, in line with its state. */
  ghost predicate ListsRight(s: System, t: Tid, p: Pc, e: Effect, c: int, d: Dir)
    requires GoodChan(s, c) && c < |e.chans|
  {
    var q, q' := multiset(s.chans[c].Selectors(d)), multiset(e.chans[c].Selectors(d));
    && (forall u {:trigger q'[u]} :: u != t ==> q'[u] == q[u])
    && (q[t] == Registered(p, c, d) ==> q'[t] == Registered(e.pc, c, d))
  }

  lemma RegisterRight(s: System, t: Tid, es: seq<Entry>, i: nat, c: int, d: Dir)
    requires GoodEntries(s, es) && i <= |es| && GoodChan(s, c)
    ensures |Register(s, t, es, i).chans| == |s.chans| && ListsRight(s, t, Registering(es, i), Register(s, t, es, i), c, d)
  {
    if i == |es| { assert es[..i] == es; }
    else {
      assert es[..i + 1] == es[..i] + [es[i]];
      CountSplit(es[..i], [es[i]], c, d);
      assert [es[i]][1..] == [];
    }
  }

  lemma CleanUpRight(s: System, t: Tid, es: seq<Entry>, i: nat, status: Status, c: int, d: Dir)
    requires GoodEntries(s, es) && i <= |es| && GoodChan(s, c)
    ensures var e := CleanUp(s, t, es, i, status);
      |e.chans| == |s.chans| && ListsRight(s, t, CleaningUp(es, i, status), e, c, d)
  {
    if i < |es| {
      assert es[i..][0] == es[i] && es[i..][1..] == es[i + 1..];
      if es[i].chan == c && es[i].dir == d { RemovedOnce(s.chans[c].Selectors(d), t); }
    }
  }

  lemma RemovedOnce(q: seq<Tid>, t: Tid)
    ensures var m, m' := multiset(q), multiset(RemoveFirst(q, t));
      && (forall u {:trigger m'[u]} :: u != t ==> m'[u] == m[u])
      && m'[t] == (if m[t] == 0 then 0 else m[t] - 1)
  {
    RemoveFirstTakesOne(q, t);
  }

  ghost predicate KeepsLists(s: System, p: Pc, e: Effect, c: int, d: Dir)
    requires GoodChan(s, c)
  {
    |e.chans| == |s.chans| && e.chans[c].Selectors(d) == s.chans[c].Selectors(d) && Registered(e.pc, c, d) == Registered(p, c, d)
  }

  lemma EnterKeepsLists(s: System, t: Tid, call: Call, c: int, d: Dir)
    requires GoodCall(s, call) && GoodChan(s, c)
    ensures KeepsLists(s, Entering(call), Enter(s, t, call), c, d)
  {
    if call.Select? { assert call.entries[..0] == []; }
  }

  lemma ScanKeepsLists(s: System, es: seq<Entry>, i: nat, c: int, d: Dir)
    requires GoodEntries(s, es) && i <= |es| && GoodChan(s, c)
    ensures KeepsLists(s, Scanning(es, i), Scan(s, es, i), c, d)
  {
    assert es[0..] == es;
  }

  lemma PostKeepsLists(s: System, ch: int, side: Dir, todo: seq<Tid>, a: After, c: int, d: Dir)
    requires GoodChan(s, ch) && GoodChan(s, c)
    ensures KeepsLists(s, Posting(ch, side, todo, a), Post(s, ch, side, todo, a), c, d)
  {
  }

  /** Every other step leaves the lists, and how often its thread should be on them, as they are. */
  lemma GoKeepsLists(s: System, t: Tid, p: Pc, c: int, d: Dir)
    requires GoodPc(s, p) && GoodChan(s, c) && !p.Registering? && !p.CleaningUp?
    ensures KeepsLists(s, p, GoEffect(s, t, p), c, d)
  {
    if p.Entering? { EnterKeepsLists(s, t, p.call, c, d); hide Enter; }
    else if p.Scanning? { ScanKeepsLists(s, p.entries, p.i, c, d); hide Scan; }
    else if p.Posting? { PostKeepsLists(s, p.chan, p.dir, p.todo, p.after, c, d); hide Post; }
    else { hide Enter, Scan, Post, Register, CleanUp; }
  }

  lemma GoListsRight(s: System, t: Tid, p: Pc, c: int, d: Dir)
    requires GoodPc(s, p) && GoodChan(s, c)
    ensures |GoEffect(s, t, p).chans| == |s.chans| && ListsRight(s, t, p, GoEffect(s, t, p), c, d)
  {
    if p.Registering? { RegisterRight(s, t, p.entries, p.i, c, d); }
    else if p.CleaningUp? { CleanUpRight(s, t, p.entries, p.i, p.status, c, d); }
    else {
      GoKeepsLists(s, t, p, c, d);
      hide GoEffect;
    }
  }

  lemma StepListedRight(s: System, st: Step, c: int, d: Dir, u: Tid)
    requires Typed(s) && Enabled(s, st) && GoodChan(s, c) && ListedRight(s, c, d, u)
    ensures GoodChan(Next(s, st), c) && ListedRight(Next(s, st), c, d, u)
  {
    var s', e, t, p := Next(s, st), StepEffect(s, st), st.t, s.threads[st.t];
    EffectGood(s, st);
    WakeDisjoint(s, st);
    if st.Go? { GoListsRight(s, t, p, c, d); }
    else if st.Signal? && p.after.Finish? { assert p.after.entries[0..] == p.after.entries; }
    hide GoEffect;
    if u in s.threads && u != t { assert s'.threads[u] == s.threads[u] || s.threads[u].Asleep?; }
  }
}

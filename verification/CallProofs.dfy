/** What a call on buffered channels sends, receives and hands back, and that its status says what it did. */
module CallProofs {
  import opened Basics
  import opened ChannelSystem
  import opened ChannelProofs
  import opened SelectProofs

  // ---------- What one step does to a channel ----------

  /** The transfer that the next step of a thread in state p attempts. */
  function Attempted(p: Pc): Option<Entry> {
    match p
    case Entering(Blocking(c, d, v)) => Some(Entry(c, d, v))
    case Entering(NonBlocking(c, d, v)) => Some(Entry(c, d, v))
    case Woken(c, d, v) => Some(Entry(c, d, v))
    case Scanning(es, i) => if i < |es| then Some(es[i]) else None
    case _ => None
  }

  /** Whether there is room to send, or something to receive. */
  predicate Room(ch: Channel, d: Dir) {
    if d == Send then |ch.sent| - |ch.received| < ch.capacity else |ch.received| < |ch.sent|
  }

  /** A woken thread tries the buffer before the closed flag; the others look at the flag first. */
  predicate GoesAhead(s: System, p: Pc, c: int)
    requires GoodChan(s, c)
  {
    p.Woken? || !s.chans[c].closed
  }

  /** Thread state p' holds the value of a transfer just made. */
  predicate Has(p': Pc, x: Value) {
    p'.ToPost? && match p'.after { case Return(y) => y == x case Finish(_, _, y) => y == x case Closing => false }
  }

  predicate SameTraffic(ch: Channel, ch': Channel) { ch'.sent == ch.sent && ch'.received == ch.received }

  /** A send puts the call's value last; a receive takes the oldest value not yet received, and has it. */
  ghost predicate Transferred(ch: Channel, ch': Channel, d: Dir, v: Value, p': Pc) {
    if d == Send then
      ch'.sent == ch.sent + [v] && ch'.received == ch.received && Has(p', v)
    else
      && |ch.received| < |ch.sent| && ch'.sent == ch.sent && ch'.received == ch.received + [ch.sent[|ch.received|]]
      && Has(p', ch.sent[|ch.received|])
  }

  lemma AttemptTransfers(s: System, c: int, d: Dir, v: Value, a: After, o: Pc, k: int)
    requires GoodChan(s, c) && GoodChan(s, k) && Fifo(s.chans[c]) && !a.Closing?
    ensures var e := Attempt(s, c, d, v, a, o);
      && |e.chans| == |s.chans| && e.chans[k].closed == s.chans[k].closed
      && (if k == c && Room(s.chans[c], d) then Transferred(s.chans[c], e.chans[c], d, v, e.pc)
          else SameTraffic(s.chans[k], e.chans[k]))
  {
    var ch := s.chans[c];
    if d == Recv && ch.buffer != [] {
      assert ch.sent[|ch.received|] == (ch.received + ch.buffer)[|ch.received|] == ch.buffer[0];
    }
  }

  /** The effect of a step of thread t, in state p, on channel k. */
  ghost predicate Traffic(s: System, p: Pc, go: bool, e: Effect, k: int)
    requires GoodChan(s, k)
  {
    && |e.chans| == |s.chans|
    && (e.chans[k].closed <==> s.chans[k].closed || (go && p == Entering(Close(k))))
    && var a := Attempted(p);
       if go && a.Some? && a.value.chan == k && GoesAhead(s, p, k) && Room(s.chans[k], a.value.dir)
       then Transferred(s.chans[k], e.chans[k], a.value.dir, a.value.value, e.pc)
       else SameTraffic(s.chans[k], e.chans[k])
  }

  lemma GoTraffic(s: System, t: Tid, p: Pc, k: int)
    requires GoodPc(s, p) && GoodChan(s, k)
    requires forall c {:trigger s.chans[c]} :: GoodChan(s, c) ==> Fifo(s.chans[c])
    ensures Traffic(s, p, true, GoEffect(s, t, p), k)
  {
    hide Attempt, Fifo, Room, Transferred;
    match p
    case Entering(Blocking(c, d, v)) => AttemptTransfers(s, c, d, v, Return(v), Asleep(c, d, v), k);
    case Entering(NonBlocking(c, d, v)) => AttemptTransfers(s, c, d, v, Return(v), Done(WouldBlock), k);
    case Woken(c, d, v) =>
      AttemptTransfers(s, c, d, v, Return(v), if s.chans[c].closed then Done(ClosedError) else Asleep(c, d, v), k);
    case Scanning(es, i) =>
      if i < |es| {
        AttemptTransfers(s, es[i].chan, es[i].dir, es[i].value, Finish(es, i, es[i].value), Scanning(es, i + 1), k);
      }
    case _ =>
  }

  /** An attempt that goes ahead and finds room moves exactly its value, and the thread has it; no other step, and
      no other channel, sees any traffic. A channel is closed by the step of channel_close, and stays closed. */
  lemma StepTraffic(s: System, st: Step, k: int)
    requires Inv(s) && Enabled(s, st) && GoodChan(s, k)
    ensures GoodPc(s, s.threads[st.t]) && Traffic(s, s.threads[st.t], st.Go?, StepEffect(s, st), k)
  {
    AllFifo(s);
    assert Typed(s) && GoodPc(s, s.threads[st.t]);
    if st.Go? {
      hide GoEffect;
      GoTraffic(s, st.t, s.threads[st.t], k);
    }
  }
}

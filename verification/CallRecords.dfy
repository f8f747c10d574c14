/** A record of what each call was seen to do to the channels, and that its status agrees with it. */
module CallRecords {
  import opened Basics
  import opened ChannelSystem
  import opened ChannelProofs
  import opened SelectProofs
  import opened CallProofs

  /** One value that went in or out of a channel, and its place among all that ever did. */
  datatype Move = Move(chan: int, dir: Dir, value: Value, at: nat)

  /** What the latest call of a thread was seen to do: the values it moved, whether it closed a channel, and
      whether its last attempt found no room. */
  datatype Log = Log(call: Call, moves: seq<Move>, shut: bool, refused: bool)

  datatype Watched = Watched(sys: System, logs: map<Tid, Log>)

  // ---------- Watching the channels ----------

  function History(ch: Channel, d: Dir): seq<Value> { if d == Send then ch.sent else ch.received }

  function SeenOn(c: int, d: Dir, h: seq<Value>, h': seq<Value>): seq<Move> {
    if |h| < |h'| then [Move(c, d, h'[|h|], |h|)] else []
  }

  function Seen(c: int, ch: Channel, ch': Channel): seq<Move> {
    SeenOn(c, Send, ch.sent, ch'.sent) + SeenOn(c, Recv, ch.received, ch'.received)
  }

  /** What happened on the first n channels. */
  function SeenUpTo(cs: seq<Channel>, cs': seq<Channel>, n: nat): seq<Move>
    requires n <= |cs| == |cs'|
  {
    if n == 0 then [] else SeenUpTo(cs, cs', n - 1) + Seen(n - 1, cs[n - 1], cs'[n - 1])
  }

  lemma {:induction false} SeenOnlyOn(cs: seq<Channel>, cs': seq<Channel>, n: nat, c: int)
    requires n <= |cs| == |cs'|
    requires forall k {:trigger cs[k]} :: 0 <= k < n && k != c ==> Seen(k, cs[k], cs'[k]) == []
    ensures SeenUpTo(cs, cs', n) == if 0 <= c < n then Seen(c, cs[c], cs'[c]) else []
  {
    if n > 0 { SeenOnlyOn(cs, cs', n - 1, c); }
  }

  ghost predicate Shuts(s: System, s': System) {
    |s'.chans| == |s.chans| && exists c {:trigger s.chans[c]} :: GoodChan(s, c) && !s.chans[c].closed && s'.chans[c].closed
  }

  /** The log of the thread that takes the step. */
  ghost function Noted(s: System, st: Step, log: Log): Log
    requires Inv(s) && Enabled(s, st) && |Next(s, st).chans| == |s.chans|
  {
    var s', a := Next(s, st), Attempted(s.threads[st.t]);
    Log(log.call,
        log.moves + SeenUpTo(s.chans, s'.chans, |s.chans|),
        log.shut || Shuts(s, s'),
        if st.Go? && a.Some? && GoodChan(s, a.value.chan) then !Room(s.chans[a.value.chan], a.value.dir) else log.refused)
  }

  ghost function WatchedStep(x: Watched, st: Step): Watched
    requires Inv(x.sys) && Enabled(x.sys, st)
  {
    KeepsChannels(x.sys, st);
    Watched(Next(x.sys, st),
      if st.Begin? then x.logs[st.t := Log(st.call, [], false, false)]
      else if st.t in x.logs then x.logs[st.t := Noted(x.sys, st, x.logs[st.t])]
      else x.logs)
  }

  lemma KeepsChannels(s: System, st: Step)
    requires Inv(s) && Enabled(s, st)
    ensures |Next(s, st).chans| == |s.chans|
  {
    EffectGood(s, st);
  }

  // ---------- What a log should say ----------

  /** The call moved one value, as entry e asks, and x is that value. */
  predicate Made(log: Log, e: Entry, x: Value) {
    && |log.moves| == 1 && !log.shut
    && var m := log.moves[0]; m.chan == e.chan && m.dir == e.dir && m.value == x && (e.dir == Send ==> x == e.value)
  }

  predicate Nothing(log: Log) { log.moves == [] && !log.shut }

  /** The entry a transfer call stands for; for select, the one with the index. */
  function Asked(call: Call, index: nat): Option<Entry> {
    match call
    case Blocking(c, d, v) => if index == 0 then Some(Entry(c, d, v)) else None
    case NonBlocking(c, d, v) => if index == 0 then Some(Entry(c, d, v)) else None
    case Select(es) => if index < |es| then Some(es[index]) else None
    case Close(_) => None
  }

  predicate ClosedChan(s: System, c: int) { GoodChan(s, c) && s.chans[c].closed }

  /** A channel of the call is closed. */
  ghost predicate MeetsClosed(s: System, call: Call) {
    match call
    case Blocking(c, _, _) => ClosedChan(s, c)
    case NonBlocking(c, _, _) => ClosedChan(s, c)
    case Close(c) => ClosedChan(s, c)
    case Select(es) => exists i {:trigger es[i]} :: 0 <= i < |es| && ClosedChan(s, es[i].chan)
  }

  /** What a status says of the call:
      success, of a transfer the call asked for and made, once, or of a close;
      would-block, that a non-blocking call found no room;
      closed, that nothing moved and a channel of the call is closed. */
  ghost predicate Honest(s: System, status: Status, log: Log) {
    match status
    case Success(Some(Result(i, x))) => Asked(log.call, i).Some? && Made(log, Asked(log.call, i).value, x)
    case Success(None) => log.call.Close? && log.moves == [] && log.shut
    case WouldBlock => log.call.NonBlocking? && Nothing(log) && log.refused
    case ClosedError => Nothing(log) && MeetsClosed(s, log.call)
    case GenericError => log.call == Select([]) && Nothing(log)
  }

  predicate HonestAfter(c: int, a: After, log: Log) {
    match a
    case Return(x) =>
      (log.call.Blocking? || log.call.NonBlocking?) && Made(log, Entry(log.call.chan, log.call.dir, log.call.value), x)
    case Finish(es, i, x) => log.call == Select(es) && i < |es| && Made(log, es[i], x)
    case Closing => log.call == Close(c) && log.moves == [] && log.shut
  }

  /** The log agrees with the state its thread is in. */
  ghost predicate Agrees(s: System, p: Pc, log: Log) {
    match p
    case Idle => true
    case Entering(call) => log.call == call && Nothing(log)
    case Asleep(c, d, v) => log.call == Blocking(c, d, v) && Nothing(log)
    case Woken(c, d, v) => log.call == Blocking(c, d, v) && Nothing(log)
    case ToPost(c, _, a) => HonestAfter(c, a, log)
    case Posting(c, _, _, a) => HonestAfter(c, a, log)
    case ToSignal(c, _, a) => HonestAfter(c, a, log)
    case ToBroadcast(c, _) => HonestAfter(c, Closing, log)
    case Registering(es, _) => log.call == Select(es) && Nothing(log)
    case Scanning(es, _) => log.call == Select(es) && Nothing(log)
    case SemWait(es) => log.call == Select(es) && Nothing(log)
    case CleaningUp(es, _, status) => log.call == Select(es) && Honest(s, status, log)
    case Done(status) => Honest(s, status, log)
  }

  ghost predicate LogsAgree(x: Watched) {
    forall t {:trigger x.sys.threads[t]} :: t in x.sys.threads && !x.sys.threads[t].Idle? ==>
      t in x.logs && Agrees(x.sys, x.sys.threads[t], x.logs[t])
  }

  // ---------- The step's own thread ----------

  /** What a step is seen to do: the one transfer its thread attempts, if that goes ahead and finds room. */
  lemma StepSeen(s: System, st: Step)
    requires Inv(s) && Enabled(s, st)
    ensures GoodPc(s, s.threads[st.t]) && |Next(s, st).chans| == |s.chans|
    ensures var s', p := Next(s, st), s.threads[st.t];
      var a := Attempted(p);
      SeenUpTo(s.chans, s'.chans, |s.chans|) ==
        if st.Go? && a.Some? && GoodChan(s, a.value.chan) && GoesAhead(s, p, a.value.chan) && Room(s.chans[a.value.chan], a.value.dir)
        then Seen(a.value.chan, s.chans[a.value.chan], s'.chans[a.value.chan]) else []
  {
    var s', p := Next(s, st), s.threads[st.t];
    KeepsChannels(s, st);
    assert Typed(s) && GoodPc(s, p);
    var a := Attempted(p);
    var c := if a.Some? then a.value.chan else -1;
    forall k | 0 <= k < |s.chans| && !(k == c && st.Go? && GoesAhead(s, p, c) && Room(s.chans[c], a.value.dir))
      ensures Seen(k, s.chans[k], s'.chans[k]) == []
    {
      StepTraffic(s, st, k);
    }
    hide Inv, Enabled, Next, Seen;
    SeenOnlyOn(s.chans, s'.chans, |s.chans|, c);
  }

  /** The log after a step that attempts entry a. */
  ghost predicate AfterAttempt(s: System, p: Pc, p': Pc, log: Log, log': Log, a: Entry)
    requires GoodChan(s, a.chan)
  {
    && log'.call == log.call && log'.shut == log.shut && log'.refused == !Room(s.chans[a.chan], a.dir)
    && if GoesAhead(s, p, a.chan) && Room(s.chans[a.chan], a.dir) then
         exists x, at {:trigger Move(a.chan, a.dir, x, at)} ::
           log'.moves == log.moves + [Move(a.chan, a.dir, x, at)] && Has(p', x) && (a.dir == Send ==> x == a.value)
       else log'.moves == log.moves
  }

  lemma TransferSeen(c: int, ch: Channel, ch': Channel, d: Dir, v: Value, p': Pc) returns (x: Value, at: nat)
    requires Transferred(ch, ch', d, v, p')
    ensures Seen(c, ch, ch') == [Move(c, d, x, at)] && Has(p', x) && (d == Send ==> x == v)
    ensures at == |History(ch, d)| && History(ch', d) == History(ch, d) + [x]
  {
    if d == Send { x, at := v, |ch.sent|; } else { x, at := ch.sent[|ch.received|], |ch.received|; }
  }

  lemma AttemptGood(s: System, st: Step)
    requires Inv(s) && Enabled(s, st)
    ensures GoodPc(s, s.threads[st.t]) && |Next(s, st).chans| == |s.chans|
    ensures st.t in Next(s, st).threads && Next(s, st).threads[st.t] == StepEffect(s, st).pc
    ensures Next(s, st).chans == StepEffect(s, st).chans
    ensures Attempted(s.threads[st.t]).Some? ==> GoodChan(s, Attempted(s.threads[st.t]).value.chan)
  {
    assert Typed(s) && GoodPc(s, s.threads[st.t]);
    KeepsChannels(s, st);
    hide Inv, Enabled, StepEffect;
  }

  lemma AttemptNoted(s: System, st: Step, log: Log)
    requires Inv(s) && Enabled(s, st) && st.Go? && Attempted(s.threads[st.t]).Some?
    ensures GoodChan(s, Attempted(s.threads[st.t]).value.chan) && |Next(s, st).chans| == |s.chans|
    ensures st.t in Next(s, st).threads
    ensures AfterAttempt(s, s.threads[st.t], Next(s, st).threads[st.t], log, Noted(s, st, log), Attempted(s.threads[st.t]).value)
  {
    var s', p := Next(s, st), s.threads[st.t];
    AttemptGood(s, st);
    var a := Attempted(p).value;
    StepSeen(s, st);
    StepTraffic(s, st, a.chan);
    NobodyShuts(s, st);
    assert !Shuts(s, s');
    hide Inv, Enabled, Next, StepEffect, Attempted, Shuts, Transferred, Seen, SeenUpTo;
    if GoesAhead(s, p, a.chan) && Room(s.chans[a.chan], a.dir) {
      var x, at := TransferSeen(a.chan, s.chans[a.chan], s'.chans[a.chan], a.dir, a.value, s'.threads[st.t]);
      assert Noted(s, st, log).moves == log.moves + [Move(a.chan, a.dir, x, at)];
    }
  }

  /** Only channel_close closes. */
  lemma NobodyShuts(s: System, st: Step)
    requires Inv(s) && Enabled(s, st)
    ensures |Next(s, st).chans| == |s.chans|
    ensures Shuts(s, Next(s, st)) <==>
              st.Go? && s.threads[st.t].Entering? && s.threads[st.t].call.Close? && !ClosedChan(s, s.threads[st.t].call.chan)
  {
    var s', p := Next(s, st), s.threads[st.t];
    KeepsChannels(s, st);
    assert Typed(s) && GoodPc(s, p);
    forall c {:trigger s.chans[c]} | GoodChan(s, c)
      ensures s'.chans[c].closed <==> s.chans[c].closed || (st.Go? && p == Entering(Close(c)))
    {
      StepTraffic(s, st, c);
    }
    hide Inv, Enabled, Next, Typed;
    if st.Go? && p.Entering? && p.call.Close? { assert GoodChan(s, p.call.chan) && p == Entering(Close(p.call.chan)); }
  }

  lemma RoomIsPossible(s: System, c: int, d: Dir)
    requires Inv(s) && GoodChan(s, c)
    ensures s.chans[c].Possible(d) <==> Room(s.chans[c], d)
  {
    AllFifo(s);
  }

  /** Where a failing attempt goes. */
  function Refused(s: System, p: Pc, c: int): Pc
    requires GoodChan(s, c)
  {
    var closed := s.chans[c].closed;
    match p
    case Entering(Blocking(c, d, v)) => if closed then Done(ClosedError) else Asleep(c, d, v)
    case Entering(NonBlocking(_, _, _)) => if closed then Done(ClosedError) else Done(WouldBlock)
    case Woken(c, d, v) => if closed then Done(ClosedError) else Asleep(c, d, v)
    case Scanning(es, i) => if closed then CleaningUp(es, 0, ClosedError) else Scanning(es, i + 1)
    case _ => p
  }

  /** An attempt leads to notifying the other side, or to where the failing call goes. */
  ghost predicate Leads(s: System, p: Pc, p': Pc, a: Entry)
    requires GoodChan(s, a.chan)
  {
    if GoesAhead(s, p, a.chan) && Room(s.chans[a.chan], a.dir) then
      && p'.ToPost? && p'.chan == a.chan
      && (p.Scanning? ==> p'.after.Finish? && p'.after.entries == p.entries && p'.after.index == p.i)
      && (!p.Scanning? ==> p'.after.Return?)
    else p' == Refused(s, p, a.chan)
  }

  lemma AttemptLeads(s: System, st: Step)
    requires Inv(s) && Enabled(s, st) && st.Go? && Attempted(s.threads[st.t]).Some?
    ensures st.t in Next(s, st).threads && GoodChan(s, Attempted(s.threads[st.t]).value.chan)
    ensures Leads(s, s.threads[st.t], Next(s, st).threads[st.t], Attempted(s.threads[st.t]).value)
  {
    AttemptGood(s, st);
    var a := Attempted(s.threads[st.t]).value;
    RoomIsPossible(s, a.chan, a.dir);
    hide Inv, Next;
  }

  lemma LeadsAgree(s: System, p: Pc, p': Pc, log: Log, log': Log, a: Entry)
    requires GoodChan(s, a.chan) && Attempted(p) == Some(a) && Agrees(s, p, log)
    requires AfterAttempt(s, p, p', log, log', a) && Leads(s, p, p', a)
    ensures Agrees(s, p', log')
  {
    hide Room;
    if p.Scanning? { assert ClosedChan(s, p.entries[p.i].chan) ==> MeetsClosed(s, Select(p.entries)); }
  }

  /** Agreement lasts: a closed channel stays closed. */
  lemma AgreesLater(s: System, s': System, p: Pc, log: Log)
    requires Agrees(s, p, log)
    requires forall c {:trigger ClosedChan(s', c)} :: ClosedChan(s, c) ==> ClosedChan(s', c)
    ensures Agrees(s', p, log)
  {
    if MeetsClosed(s, log.call) && log.call.Select? {
      var i :| 0 <= i < |log.call.entries| && ClosedChan(s, log.call.entries[i].chan);
      assert ClosedChan(s', log.call.entries[i].chan);
    }
  }

  lemma ClosedStays(s: System, st: Step)
    requires Inv(s) && Enabled(s, st)
    ensures forall c {:trigger ClosedChan(Next(s, st), c)} :: ClosedChan(s, c) ==> ClosedChan(Next(s, st), c)
  {
    forall c {:trigger ClosedChan(Next(s, st), c)} | ClosedChan(s, c) ensures ClosedChan(Next(s, st), c) {
      AttemptGood(s, st);
      StepTraffic(s, st, c);
    }
  }

  /** The log still agrees after an attempt. */
  lemma AttemptAgrees(s: System, st: Step, log: Log)
    requires Inv(s) && Enabled(s, st) && st.Go? && Attempted(s.threads[st.t]).Some? && Agrees(s, s.threads[st.t], log)
    ensures |Next(s, st).chans| == |s.chans| && st.t in Next(s, st).threads
    ensures Agrees(Next(s, st), Next(s, st).threads[st.t], Noted(s, st, log))
  {
    AttemptNoted(s, st, log);
    AttemptLeads(s, st);
    ClosedStays(s, st);
    var p := s.threads[st.t];
    hide Inv, Enabled, Next, Noted, Leads, AfterAttempt, Agrees, Attempted;
    LeadsAgree(s, p, Next(s, st).threads[st.t], log, Noted(s, st, log), Attempted(p).value);
    AgreesLater(s, Next(s, st), Next(s, st).threads[st.t], Noted(s, st, log));
  }

  /** What a step that attempts nothing adds to the log. */
  lemma RestNoted(s: System, st: Step, log: Log)
    requires Inv(s) && Enabled(s, st) && !(st.Go? && Attempted(s.threads[st.t]).Some?)
    ensures |Next(s, st).chans| == |s.chans|
    ensures var p := s.threads[st.t];
      var shuts := st.Go? && p.Entering? && p.call.Close? && !ClosedChan(s, p.call.chan);
      Noted(s, st, log) == log.(shut := log.shut || shuts)
  {
    StepSeen(s, st);
    NobodyShuts(s, st);
    hide Inv, Enabled, Next, Seen, Shuts, SeenUpTo;
  }

  lemma RestAgrees(s: System, st: Step, log: Log)
    requires Inv(s) && Enabled(s, st) && !st.Begin? && !(st.Go? && Attempted(s.threads[st.t]).Some?)
    requires Agrees(s, s.threads[st.t], log)
    ensures |Next(s, st).chans| == |s.chans| && st.t in Next(s, st).threads
    ensures Agrees(Next(s, st), Next(s, st).threads[st.t], Noted(s, st, log))
  {
    RestNoted(s, st, log);
    AttemptGood(s, st);
    ClosedStays(s, st);
    RestLeads(s, st, Noted(s, st, log), log);
    hide Inv, Next, Enabled, Noted, Agrees;
    AgreesLater(s, Next(s, st), Next(s, st).threads[st.t], Noted(s, st, log));
  }

  lemma RestLeads(s: System, st: Step, log': Log, log: Log)
    requires Inv(s) && Enabled(s, st) && !st.Begin? && !(st.Go? && Attempted(s.threads[st.t]).Some?)
    requires Agrees(s, s.threads[st.t], log)
    requires var p := s.threads[st.t];
      var shuts := st.Go? && p.Entering? && p.call.Close? && !ClosedChan(s, p.call.chan);
      log' == log.(shut := log.shut || shuts)
    ensures st.t in Next(s, st).threads && Agrees(s, Next(s, st).threads[st.t], log')
  {
    AttemptGood(s, st);
    hide Inv, Next, Attempt;
  }

  // ---------- Everybody's log ----------

  ghost predicate Start(x: Watched) { ChannelSystem.Start(x.sys) && x.logs == map[] }

  lemma StartAgrees(x: Watched)
    requires Start(x)
    ensures Inv(x.sys) && LogsAgree(x)
  {
    StartInv(x.sys);
  }

  /** A thread the step does not run is where it was, or has been woken. */
  lemma OthersWait(s: System, st: Step, u: Tid)
    requires Inv(s) && Enabled(s, st) && u in s.threads && u != st.t
    ensures u in Next(s, st).threads && (Next(s, st).threads[u] == s.threads[u] || Next(s, st).threads[u] == WokenUp(s.threads[u]))
  {
    assert Typed(s);
    hide Inv, StepEffect, Enabled;
  }

  /** Every step keeps every log in agreement with its thread. */
  lemma StepAgrees(x: Watched, st: Step)
    requires Inv(x.sys) && LogsAgree(x) && Enabled(x.sys, st)
    ensures Inv(WatchedStep(x, st).sys) && LogsAgree(WatchedStep(x, st))
  {
    var x' := WatchedStep(x, st);
    StepInv(x.sys, st);
    ClosedStays(x.sys, st);
    forall t | t in x'.sys.threads && !x'.sys.threads[t].Idle?
      ensures t in x'.logs && Agrees(x'.sys, x'.sys.threads[t], x'.logs[t])
    {
      if t == st.t { OwnAgrees(x, st); } else { OtherAgrees(x, st, t); }
    }
  }

  lemma OwnAgrees(x: Watched, st: Step)
    requires Inv(x.sys) && LogsAgree(x) && Enabled(x.sys, st)
    ensures var x' := WatchedStep(x, st);
      st.t in x'.sys.threads && st.t in x'.logs && Agrees(x'.sys, x'.sys.threads[st.t], x'.logs[st.t])
  {
    var s, p := x.sys, x.sys.threads[st.t];
    KeepsChannels(s, st);
    AttemptGood(s, st);
    if !st.Begin? {
      assert !p.Idle?;
      var log := x.logs[st.t];
      if st.Go? && Attempted(p).Some? { AttemptAgrees(s, st, log); } else { RestAgrees(s, st, log); }
    }
    hide Inv, Next, Noted;
  }

  lemma OtherAgrees(x: Watched, st: Step, t: Tid)
    requires Inv(x.sys) && LogsAgree(x) && Enabled(x.sys, st) && t != st.t
    requires t in Next(x.sys, st).threads && !Next(x.sys, st).threads[t].Idle?
    ensures t in WatchedStep(x, st).logs && Agrees(Next(x.sys, st), Next(x.sys, st).threads[t], WatchedStep(x, st).logs[t])
  {
    var s, s' := x.sys, Next(x.sys, st);
    SameThreads(s, st);
    OthersWait(s, st, t);
    ClosedStays(s, st);
    KeepsChannels(s, st);
    hide Inv, Next, Enabled, Noted;
    assert !s.threads[t].Idle?;
    var log := x.logs[t];
    assert Agrees(s, s'.threads[t], log);
    hide Agrees;
    AgreesLater(s, s', s'.threads[t], log);
  }

  lemma SameThreads(s: System, st: Step)
    requires Inv(s) && Enabled(s, st)
    ensures Next(s, st).threads.Keys == s.threads.Keys
  {
    assert Typed(s);
    hide Inv, StepEffect, Enabled;
  }
}

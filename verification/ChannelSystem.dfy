/** Threads calling into buffered channels: a state machine whose steps are the stretches that run under
    one mutex, one condition-variable operation, or one semaphore operation. */
module ChannelSystem {
  import opened Basics

  type Tid = int
  type Value = int

  datatype Dir = Send | Recv

  function Other(d: Dir): Dir { if d == Send then Recv else Send }

  /** What a successful transfer hands back: the index of the entry that made it, 0 outside select, and the
      value that moved. */
  datatype Result = Result(index: nat, value: Value)

  /** close succeeds without a result. */
  datatype Status = Success(result: Option<Result>) | ClosedError | WouldBlock | GenericError

  /** One entry of a select list: the channel, what to do on it, and the value to send. */
  datatype Entry = Entry(chan: int, dir: Dir, value: Value)

  datatype Call =
    | Blocking(chan: int, dir: Dir, value: Value)       // channel_send, channel_receive
    | NonBlocking(chan: int, dir: Dir, value: Value)    // channel_non_blocking_send, ..._receive
    | Close(chan: int)
    | Select(entries: seq<Entry>)

  /** What a thread does once it has posted to the selectors of a channel. */
  datatype After =
    | Return(value: Value)
    | Finish(entries: seq<Entry>, index: nat, value: Value)      // channel_select: the entry is done, clean up
    | Closing

  datatype Pc =
    | Idle
    | Entering(call: Call)
    | Asleep(chan: int, dir: Dir, value: Value)      // in pthread_cond_wait
    | Woken(chan: int, dir: Dir, value: Value)       // about to lock chan_mutex again
    | ToPost(chan: int, dir: Dir, after: After)      // about to notify the selectors of side dir
    | Posting(chan: int, dir: Dir, todo: seq<Tid>, after: After)
    | ToSignal(chan: int, dir: Dir, after: After)    // about to signal the condition of side dir
    | ToBroadcast(chan: int, dir: Dir)
    | Registering(entries: seq<Entry>, i: nat)
    | Scanning(entries: seq<Entry>, i: nat)
    | SemWait(entries: seq<Entry>)
    | CleaningUp(entries: seq<Entry>, i: nat, status: Status)
    | Done(status: Status)

  /** A channel. `sent` and `received` record, in lock order, what went in and out.
      The selector lists hold the thread whose semaphore is registered; `poster` holds select_list_mutex
      while it walks a list. */
  datatype Channel = Channel(
    capacity: nat, buffer: seq<Value>, closed: bool,
    sendSelectors: seq<Tid>, recvSelectors: seq<Tid>, posting: bool,
    sent: seq<Value>, received: seq<Value>)
  {
    function Selectors(d: Dir): seq<Tid> { if d == Send then sendSelectors else recvSelectors }

    function SetSelectors(d: Dir, s: seq<Tid>): Channel {
      if d == Send then this.(sendSelectors := s) else this.(recvSelectors := s)
    }

    predicate Possible(d: Dir) { if d == Send then |buffer| < capacity else buffer != [] }

    /** buffer_add or buffer_remove, when it succeeds. */
    function Transfer(d: Dir, v: Value): Channel
      requires Possible(d)
    {
      if d == Send then this.(buffer := buffer + [v], sent := sent + [v])
      else this.(buffer := buffer[1..], received := received + [buffer[0]])
    }

    /** What a select entry waits for. */
    predicate Ready(d: Dir) { Possible(d) || closed }
  }

  datatype System = System(chans: seq<Channel>, threads: map<Tid, Pc>, sems: map<Tid, nat>)

  datatype Step =
    | Begin(t: Tid, call: Call)
    | Go(t: Tid)
    | Signal(t: Tid, woken: set<Tid>)
    | Spurious(t: Tid)

  predicate GoodChan(s: System, c: int) { 0 <= c < |s.chans| }

  predicate GoodEntries(s: System, es: seq<Entry>) {
    forall i :: 0 <= i < |es| ==> GoodChan(s, es[i].chan)
  }

  predicate GoodCall(s: System, call: Call) {
    match call
    case Blocking(c, _, _) => GoodChan(s, c)
    case NonBlocking(c, _, _) => GoodChan(s, c)
    case Close(c) => GoodChan(s, c)
    case Select(es) => GoodEntries(s, es)
  }

  /** The channels a thread's state mentions exist. */
  predicate GoodPc(s: System, p: Pc) {
    match p
    case Idle => true
    case Entering(call) => GoodCall(s, call)
    case Asleep(c, _, _) => GoodChan(s, c)
    case Woken(c, _, _) => GoodChan(s, c)
    case ToPost(c, _, a) => GoodChan(s, c) && (a.Finish? ==> GoodEntries(s, a.entries))
    case Posting(c, _, _, a) => GoodChan(s, c) && (a.Finish? ==> GoodEntries(s, a.entries))
    case ToSignal(c, _, a) => GoodChan(s, c) && (a.Finish? ==> GoodEntries(s, a.entries))
    case ToBroadcast(c, _) => GoodChan(s, c)
    case Registering(es, i) => GoodEntries(s, es) && i <= |es|
    case Scanning(es, i) => GoodEntries(s, es) && i <= |es|
    case SemWait(es) => GoodEntries(s, es)
    case CleaningUp(es, i, _) => GoodEntries(s, es) && i <= |es|
    case Done(_) => true
  }

  ghost predicate Typed(s: System) {
    && s.sems.Keys == s.threads.Keys
    && (forall t {:trigger s.threads[t]} :: t in s.threads ==> GoodPc(s, s.threads[t]))
  }

  predicate IsAsleep(p: Pc, c: int, d: Dir) { p.Asleep? && p.chan == c && p.dir == d }

  function Sleepers(s: System, c: int, d: Dir): set<Tid> {
    set t | t in s.threads && IsAsleep(s.threads[t], c, d)
  }

  ghost predicate Enabled(s: System, st: Step) {
    st.t in s.threads && match st
    case Begin(t, call) => (s.threads[t].Idle? || s.threads[t].Done?) && GoodCall(s, call)
    case Go(t) => CanGo(s, t)
    case Signal(t, woken) =>
      s.threads[t].ToSignal? &&
      var sleepers := Sleepers(s, s.threads[t].chan, s.threads[t].dir);
      woken <= sleepers && (sleepers != {} ==> woken != {})      // at least one, if there is one
    case Spurious(t) => s.threads[t].Asleep?
  }

  /** Whether thread t can take its own next step: mutexes that are held across steps, and semaphores. */
  ghost predicate CanGo(s: System, t: Tid)
    requires t in s.threads
  {
    match s.threads[t]
    case Entering(_) => true
    case Woken(_, _, _) => true
    case ToPost(c, _, _) => GoodChan(s, c) && !s.chans[c].posting
    case Posting(_, _, _, _) => true
    case ToBroadcast(_, _) => true
    case Registering(es, i) => i < |es| ==> GoodChan(s, es[i].chan) && !s.chans[es[i].chan].posting
    case Scanning(_, _) => true
    case SemWait(_) => t in s.sems && s.sems[t] > 0
    case CleaningUp(es, i, _) => i < |es| ==> GoodChan(s, es[i].chan) && !s.chans[es[i].chan].posting
    case _ => false
  }

  // ---------- Steps ----------

  /** What a step does: the new state of its thread, of the channels and of the semaphores, and the
      sleepers it wakes. */
  datatype Effect = Effect(pc: Pc, chans: seq<Channel>, sems: map<Tid, nat>, wake: set<Tid>)

  function Only(s: System, p: Pc): Effect { Effect(p, s.chans, s.sems, {}) }

  function With(s: System, p: Pc, c: int, ch: Channel): Effect
    requires GoodChan(s, c)
  {
    Effect(p, s.chans[c := ch], s.sems, {})
  }

  /** The value that a transfer moves. */
  function Moved(ch: Channel, d: Dir, v: Value): Value
    requires ch.Possible(d)
  {
    if d == Send then v else ch.buffer[0]
  }

  /** *data, or the entry's data, once the transfer is made. */
  function Handed(after: After, x: Value): After {
    match after
    case Return(_) => Return(x)
    case Finish(es, i, _) => Finish(es, i, x)
    case Closing => Closing
  }

  /** One attempt at a transfer, in the critical section, and where it leads. */
  function Attempt(s: System, c: int, d: Dir, v: Value, after: After, otherwise: Pc): Effect
    requires GoodChan(s, c)
  {
    if s.chans[c].Possible(d) then With(s, ToPost(c, Other(d), Handed(after, Moved(s.chans[c], d, v))), c, s.chans[c].Transfer(d, v))
    else Only(s, otherwise)
  }

  function Enter(s: System, t: Tid, call: Call): Effect
    requires GoodCall(s, call)
  {
    match call
    case Blocking(c, d, v) =>
      if s.chans[c].closed then Only(s, Done(ClosedError)) else Attempt(s, c, d, v, Return(v), Asleep(c, d, v))
    case NonBlocking(c, d, v) =>
      if s.chans[c].closed then Only(s, Done(ClosedError)) else Attempt(s, c, d, v, Return(v), Done(WouldBlock))
    case Close(c) =>
      if s.chans[c].closed then Only(s, Done(ClosedError))
      else With(s, ToPost(c, Recv, Closing), c, s.chans[c].(closed := true))
    case Select(es) =>
      if es == [] then Only(s, Done(GenericError)) else Only(s, Registering(es, 0)).(sems := s.sems[t := 0])
  }

  /** Woken in channel_send or channel_receive: the buffer is tried before the closed flag is. */
  function Retry(s: System, c: int, d: Dir, v: Value): Effect
    requires GoodChan(s, c)
  {
    Attempt(s, c, d, v, Return(v), if s.chans[c].closed then Done(ClosedError) else Asleep(c, d, v))
  }

  /** After a walk over the selectors of side d. */
  function AfterPosting(c: int, d: Dir, after: After): Pc {
    if after != Closing then ToSignal(c, d, after)
    else if d == Recv then ToPost(c, Send, Closing) else ToBroadcast(c, Recv)
  }

  /** The next semaphore, or the end of the walk over the list. */
  function Post(s: System, c: int, d: Dir, todo: seq<Tid>, after: After): Effect
    requires GoodChan(s, c)
  {
    if todo != [] then
      Only(s, Posting(c, d, todo[1..], after))
        .(sems := if todo[0] in s.sems then s.sems[todo[0] := s.sems[todo[0]] + 1] else s.sems)
    else With(s, AfterPosting(c, d, after), c, s.chans[c].(posting := false))
  }

  function Register(s: System, t: Tid, es: seq<Entry>, i: nat): Effect
    requires GoodEntries(s, es) && i <= |es|
  {
    if i == |es| then Only(s, Scanning(es, 0))
    else
      var c, d := es[i].chan, es[i].dir;
      With(s, Registering(es, i + 1), c, s.chans[c].SetSelectors(d, s.chans[c].Selectors(d) + [t]))
  }

  /** One entry of the scan in channel_select: a non-blocking operation. */
  function Scan(s: System, es: seq<Entry>, i: nat): Effect
    requires GoodEntries(s, es) && i <= |es|
  {
    if i == |es| then Only(s, SemWait(es))
    else if s.chans[es[i].chan].closed then Only(s, CleaningUp(es, 0, ClosedError))
    else Attempt(s, es[i].chan, es[i].dir, es[i].value, Finish(es, i, es[i].value), Scanning(es, i + 1))
  }

  function CleanUp(s: System, t: Tid, es: seq<Entry>, i: nat, status: Status): Effect
    requires GoodEntries(s, es) && i <= |es|
  {
    if i == |es| then Only(s, Done(status))
    else
      var c, d := es[i].chan, es[i].dir;
      With(s, CleaningUp(es, i + 1, status), c, s.chans[c].SetSelectors(d, RemoveFirst(s.chans[c].Selectors(d), t)))
  }

  function AfterSignal(a: After): Pc {
    match a
    case Finish(es, i, x) => CleaningUp(es, 0, Success(Some(Result(i, x))))
    case Return(x) => Done(Success(Some(Result(0, x))))
    case Closing => Done(Success(None))
  }

  function GoEffect(s: System, t: Tid, p: Pc): Effect
    requires GoodPc(s, p)
  {
    match p
    case Entering(call) => Enter(s, t, call)
    case Woken(c, d, v) => Retry(s, c, d, v)
    case ToPost(c, d, a) => With(s, Posting(c, d, s.chans[c].Selectors(d), a), c, s.chans[c].(posting := true))
    case Posting(c, d, todo, a) => Post(s, c, d, todo, a)
    case ToBroadcast(c, d) =>
      Only(s, if d == Recv then ToBroadcast(c, Send) else Done(Success(None))).(wake := Sleepers(s, c, d))
    case Registering(es, i) => Register(s, t, es, i)
    case Scanning(es, i) => Scan(s, es, i)
    case SemWait(es) =>
      Only(s, Scanning(es, 0)).(sems := if t in s.sems && s.sems[t] > 0 then s.sems[t := s.sems[t] - 1] else s.sems)
    case CleaningUp(es, i, status) => CleanUp(s, t, es, i, status)
    case _ => Only(s, p)
  }

  ghost function StepEffect(s: System, st: Step): Effect
    requires Typed(s) && Enabled(s, st)
  {
    assert GoodPc(s, s.threads[st.t]);
    match st
    case Begin(t, call) => Only(s, Entering(call))
    case Go(t) => GoEffect(s, t, s.threads[t])
    case Signal(t, woken) => Only(s, AfterSignal(s.threads[t].after)).(wake := woken)
    case Spurious(t) => Only(s, WokenUp(s.threads[t]))
  }

  function WokenUp(p: Pc): Pc {
    if p.Asleep? then Woken(p.chan, p.dir, p.value) else p
  }

  /** The thread's new state, and the woken ones. */
  function Apply(s: System, t: Tid, e: Effect): (s': System)
  {
    System(e.chans,
           map u | u in s.threads :: if u == t then e.pc else if u in e.wake then WokenUp(s.threads[u]) else s.threads[u],
           e.sems)
  }

  ghost function Next(s: System, st: Step): System
    requires Typed(s) && Enabled(s, st)
  {
    Apply(s, st.t, StepEffect(s, st))
  }

  ghost predicate Start(s: System) {
    && s.sems.Keys == s.threads.Keys
    && (forall t {:trigger s.threads[t]} :: t in s.threads ==> s.threads[t] == Idle)
    && (forall c {:trigger s.chans[c]} :: 0 <= c < |s.chans| ==>
          s.chans[c].capacity > 0 && s.chans[c] == Channel(s.chans[c].capacity, [], false, [], [], false, [], []))
  }

  ghost predicate GoodEffect(s: System, e: Effect) {
    GoodPc(s, e.pc) && |e.chans| == |s.chans| && e.sems.Keys == s.sems.Keys
  }

  lemma EnterGood(s: System, t: Tid, call: Call)
    requires GoodCall(s, call) && t in s.sems
    ensures GoodEffect(s, Enter(s, t, call))
  {
  }

  lemma GoGood(s: System, t: Tid, p: Pc)
    requires GoodPc(s, p) && t in s.sems && !p.Entering?
    ensures GoodEffect(s, GoEffect(s, t, p))
  {
  }

  /** The effect of a step in well-typed terms. */
  lemma EffectGood(s: System, st: Step)
    requires Typed(s) && Enabled(s, st)
    ensures GoodPc(s, s.threads[st.t]) && GoodEffect(s, StepEffect(s, st))
  {
    var p := s.threads[st.t];
    assert GoodPc(s, p);
    if st.Go? {
      if p.Entering? { EnterGood(s, st.t, p.call); } else { GoGood(s, st.t, p); }
    } else {
      hide GoEffect;
    }
  }

  lemma NextTyped(s: System, st: Step)
    requires Typed(s) && Enabled(s, st)
    ensures Typed(Next(s, st)) && Next(s, st).threads.Keys == s.threads.Keys && |Next(s, st).chans| == |s.chans|
  {
    hide StepEffect, Enabled;
    var s', e := Next(s, st), StepEffect(s, st);
    EffectGood(s, st);
    forall t {:trigger s'.threads[t]} | t in s'.threads ensures GoodPc(s', s'.threads[t]) {
      assert t in s.threads && GoodPc(s, s.threads[t]);
      SameGood(s, s', s.threads[t]);
      SameGood(s, s', e.pc);
    }
  }

  lemma SameGood(s: System, s': System, p: Pc)
    requires |s.chans| == |s'.chans| && GoodPc(s, p)
    ensures GoodPc(s', p) && GoodPc(s', WokenUp(p))
  {
  }
}

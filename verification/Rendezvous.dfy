/** Threads that send and receive on an open unbuffered channel: `unbuffered_sync` as a state machine whose
    steps are the stretches run under chan_mutex, and the wakeups of pthread_cond_wait that nobody signalled. */
module Rendezvous {
  import opened Basics
  import opened ChannelSystem

  /** Where a call stands: about to lock chan_mutex, asleep on rendezvous_complete_cv, woken from it,
      asleep on rendezvous_wait_cv, woken from it. */
  datatype Where = Arriving | Offering | Met | Waiting | Retrying

  datatype Pc = Out | In(call: nat, at: Where)

  /** A call on the channel. `value` is what its cell (data_ptr) holds at the start. */
  datatype Call = Call(thread: Tid, dir: Dir, value: Value)

  /** The channel and its threads. Calls are numbered in the order they were made; `cells` holds what each
      call's data_ptr points to and `data` is the call unbuf_data belongs to. `partner`, `returned` and `lone`
      are the record of the run: who met whom, what each returned call left in its cell, and the calls whose
      initiator found the channel still in stage 1 after its wait. */
  datatype State = State(
    threads: map<Tid, Pc>, stage: int, op: Dir, data: nat, cells: seq<Value>,
    waitingSenders: int, waitingReceivers: int,
    calls: seq<Call>, partner: map<nat, nat>, returned: map<nat, Value>, lone: set<nat>)

  datatype Step =
    | Begin(t: Tid, dir: Dir, value: Value)
    | Sync(t: Tid, woken: set<Tid>)
    | Finish(t: Tid)
    | Spurious(t: Tid)

  function At(s: State, w: Where): set<Tid> {
    set t | t in s.threads && s.threads[t].In? && s.threads[t].at == w
  }

  predicate Runs(s: State, t: Tid, w: Where) { t in s.threads && s.threads[t].In? && s.threads[t].at == w }

  predicate AtDoor(s: State, t: Tid) { Runs(s, t, Arriving) || Runs(s, t, Retrying) }

  ghost predicate Typed(s: State) {
    && |s.cells| == |s.calls|
    && s.stage in {0, 1, 2} && (s.stage != 0 ==> s.data < |s.calls|)
    && (forall t {:trigger s.threads[t]} :: t in s.threads && s.threads[t].In? ==>
          s.threads[t].call < |s.calls| && s.calls[s.threads[t].call].thread == t)
    && (forall k {:trigger s.calls[k]} :: 0 <= k < |s.calls| ==> s.calls[k].thread in s.threads)
  }

  function Direction(s: State, t: Tid): Dir
    requires t in s.threads && s.threads[t].In? && s.threads[t].call < |s.calls|
  {
    s.calls[s.threads[t].call].dir
  }

  /** The step exists, and a signal on rendezvous_complete_cv wakes somebody if somebody sleeps there. */
  ghost predicate Enabled(s: State, st: Step) {
    match st
    case Begin(t, _, _) => t in s.threads && s.threads[t].Out?
    case Sync(t, woken) => AtDoor(s, t) && woken <= At(s, Offering) && (At(s, Offering) != {} ==> woken != {})
    case Finish(t) => Runs(s, t, Met)
    case Spurious(t) => Runs(s, t, Offering) || Runs(s, t, Waiting)
  }

  // ---------- Steps ----------

  function Counted(s: State, d: Dir, n: int): State {
    if d == Send then s.(waitingSenders := s.waitingSenders + n)
    else s.(waitingReceivers := s.waitingReceivers + n)
  }

  function Moved(p: Pc, w: Where): Pc { if p.In? then p.(at := w) else p }

  function Move(s: State, ts: set<Tid>, w: Where): State {
    s.(threads := map u | u in s.threads :: if u in ts then Moved(s.threads[u], w) else s.threads[u])
  }

  function Return(s: State, t: Tid): State
    requires t in s.threads && s.threads[t].In? && s.threads[t].call < |s.cells|
  {
    var k := s.threads[t].call;
    s.(threads := s.threads[t := Out], returned := s.returned[k := s.cells[k]])
  }

  /** The complementary operation in stage 1: the value moves between the two cells. */
  function Exchange(s: State, k: nat): State
    requires k < |s.cells| == |s.calls| && s.data < |s.cells|
  {
    s.(cells := if s.calls[k].dir == Recv then s.cells[k := s.cells[s.data]] else s.cells[s.data := s.cells[k]],
       partner := s.partner[k := s.data][s.data := k])
  }

  /** unbuffered_sync from its label on, for thread t. */
  function SyncStep(s: State, t: Tid, woken: set<Tid>): State
    requires |s.cells| == |s.calls| && (s.stage != 0 ==> s.data < |s.calls|)
    requires t in s.threads && s.threads[t].In? && s.threads[t].call < |s.calls|
  {
    var k := s.threads[t].call;
    var d := s.calls[k].dir;
    var s0 := if s.threads[t].at == Retrying then Counted(s, d, -1) else s;
    if s.stage == 0 then Move(s0, {t}, Offering).(stage := 1, op := d, data := k)
    else if s.stage == 1 && s.op != d then Return(Move(Exchange(s0, k), woken, Met).(stage := 2), t)
    else Move(Counted(s0, d, 1), {t}, Waiting)
  }

  /** The rest of the initiator's call, after its wait. */
  function FinishStep(s: State, t: Tid): State
    requires t in s.threads && s.threads[t].In? && s.threads[t].call < |s.cells|
  {
    Return(Move(s, At(s, Waiting), Retrying)
             .(stage := 0, lone := if s.stage == 1 then s.lone + {s.threads[t].call} else s.lone), t)
  }

  /** pthread_cond_wait returns to thread t although nobody signalled. */
  function SpuriousStep(s: State, t: Tid): State
    requires t in s.threads && s.threads[t].In?
  {
    s.(threads := s.threads[t := s.threads[t].(at := if s.threads[t].at == Offering then Met else Retrying)])
  }

  ghost function Next(s: State, st: Step): State
    requires Typed(s) && Enabled(s, st)
  {
    match st
    case Begin(t, d, v) =>
      s.(threads := s.threads[t := In(|s.calls|, Arriving)], calls := s.calls + [Call(t, d, v)], cells := s.cells + [v])
    case Sync(t, woken) => SyncStep(s, t, woken)
    case Finish(t) => FinishStep(s, t)
    case Spurious(t) => SpuriousStep(s, t)
  }

  // ---------- The invariant ----------

  ghost predicate StageZero(s: State)
  {
    forall t {:trigger s.threads[t]} :: t in s.threads && s.threads[t].In? ==> s.threads[t].at in {Arriving, Retrying}
  }

  /** One initiator, asleep or spuriously woken, its cell untouched; every thread on rendezvous_wait_cv has its
      direction. */
  ghost predicate StageOne(s: State)
    requires Typed(s) && s.stage != 0
  {
    && s.threads[s.calls[s.data].thread] in {In(s.data, Offering), In(s.data, Met)} && s.op == s.calls[s.data].dir
    && s.data !in s.partner
    && (forall t {:trigger s.threads[t]} :: t in s.threads && s.threads[t].In? ==>
          && (s.threads[t].at in {Offering, Met} ==> t == s.calls[s.data].thread)
          && (s.threads[t].at == Waiting ==> Direction(s, t) == s.op))
  }

  /** The initiator has a partner and is awake. */
  ghost predicate StageTwo(s: State)
    requires Typed(s) && s.stage != 0
  {
    && s.threads[s.calls[s.data].thread] == In(s.data, Met)
    && s.data in s.partner
    && (forall t {:trigger s.threads[t]} :: t in s.threads && s.threads[t].In? ==>
          s.threads[t].at != Offering && (s.threads[t].at == Met ==> t == s.calls[s.data].thread))
  }

  ghost predicate Staged(s: State)
    requires Typed(s)
  {
    && (s.stage == 0 ==> StageZero(s))
    && (s.stage == 1 ==> StageOne(s))
    && (s.stage == 2 ==> StageTwo(s))
  }

  /** Call k has met exactly one call, of the other direction, which has met exactly k. */
  ghost predicate Paired(s: State, k: nat) {
    && k < |s.calls| && k in s.partner && s.partner[k] < |s.calls|
    && s.partner[k] in s.partner && s.partner[s.partner[k]] == k
    && s.calls[s.partner[k]].dir == Other(s.calls[k].dir)
  }

  /** The value of the send in k's pair. */
  function PairValue(s: State, k: nat): Value
    requires k < |s.calls| && k in s.partner && s.partner[k] < |s.calls|
  {
    if s.calls[k].dir == Send then s.calls[k].value else s.calls[s.partner[k]].value
  }

  /** Whether call k is in progress. */
  predicate InProgress(s: State, k: nat)
    requires k < |s.calls|
  {
    s.calls[k].thread in s.threads && s.threads[s.calls[k].thread].In? && s.threads[s.calls[k].thread].call == k
  }

  /** What the record says of call k. Before its meeting its cell is untouched; after it, the cell holds the
      sender's value, for both of the pair. */
  ghost predicate Accounted(s: State, k: nat)
    requires Typed(s) && k < |s.calls|
  {
    && (k in s.returned <==> !InProgress(s, k))
    && (k in s.partner <==> (k in s.returned && k !in s.lone) || (s.stage == 2 && k == s.data))
    && (k in s.lone ==> k in s.returned && s.returned[k] == s.calls[k].value)
    && (k !in s.partner ==> s.cells[k] == s.calls[k].value)
    && (k in s.partner ==> Paired(s, k) && s.cells[k] == PairValue(s, k))
    && (k in s.returned && k in s.partner ==> s.returned[k] == PairValue(s, k))
  }

  ghost predicate Recorded(s: State)
    requires Typed(s)
  {
    && (forall k {:trigger Accounted(s, k)} :: 0 <= k < |s.calls| ==> Accounted(s, k))
    && (forall k {:trigger k in s.partner} :: k in s.partner ==> k < |s.calls|)
    && (forall k {:trigger k in s.returned} :: k in s.returned ==> k < |s.calls|)
    && (forall k {:trigger k in s.lone} :: k in s.lone ==> k < |s.calls|)
  }

  ghost predicate Inv(s: State) { Typed(s) && Staged(s) && Recorded(s) }

  ghost predicate Start(s: State) {
    && s.stage == 0 && s.calls == [] && s.cells == [] && s.partner == map[] && s.returned == map[] && s.lone == {}
    && s.waitingSenders == 0 && s.waitingReceivers == 0
    && forall t {:trigger s.threads[t]} :: t in s.threads ==> s.threads[t] == Out
  }

  lemma StartInv(s: State)
    requires Start(s)
    ensures Inv(s)
  {
  }

  // ---------- Every step keeps it ----------

  lemma BeginInv(s: State, st: Step)
    requires Inv(s) && Enabled(s, st) && st.Begin?
    ensures Inv(Next(s, st))
  {
    var s' := Next(s, st);
    forall k | 0 <= k < |s'.calls| ensures Accounted(s', k) {
      if k < |s.calls| { assert Accounted(s, k); }
    }
  }

  predicate Meets(s: State, st: Step)
    requires Typed(s) && Enabled(s, st) && st.Sync?
  {
    s.stage == 1 && s.op != Direction(s, st.t)
  }

  /** The signal of the complementary operation wakes the initiator, if it sleeps, and nobody else. */
  lemma OnlyInitiatorWakes(s: State, st: Step)
    requires Inv(s) && Enabled(s, st) && st.Sync? && s.stage == 1
    ensures st.woken == At(s, Offering) <= {s.calls[s.data].thread}
    ensures Runs(s, s.calls[s.data].thread, Offering) || Runs(s, s.calls[s.data].thread, Met)
  {
    var i := s.calls[s.data].thread;
    forall t | t in At(s, Offering) ensures t == i { assert s.threads[t].at == Offering; }
  }

  /** What a rendezvous does to the state. */
  lemma MeetMeans(s: State, st: Step)
    requires Inv(s) && Enabled(s, st) && st.Sync? && Meets(s, st)
    ensures var s', k, i := Next(s, st), s.threads[st.t].call, s.data;
      && s'.calls == s.calls && s'.stage == 2 && s'.op == s.op && s'.data == i && k != i
      && s'.threads == s.threads[s.calls[i].thread := In(i, Met)][st.t := Out]
      && s'.cells == (if s.calls[k].dir == Recv then s.cells[k := s.cells[i]] else s.cells[i := s.cells[k]])
      && s'.partner == s.partner[k := i][i := k] && s'.returned == s.returned[k := s'.cells[k]] && s'.lone == s.lone
  {
    OnlyInitiatorWakes(s, st);
  }

  lemma MeetTyped(s: State, st: Step)
    requires Inv(s) && Enabled(s, st) && st.Sync? && Meets(s, st)
    ensures Typed(Next(s, st)) && Staged(Next(s, st))
  {
    MeetMeans(s, st);
    hide Next, Recorded;
  }

  lemma MeetAccountsPair(s: State, st: Step)
    requires Inv(s) && Enabled(s, st) && st.Sync? && Meets(s, st)
    ensures Typed(Next(s, st)) && |Next(s, st).calls| == |s.calls|
    ensures Accounted(Next(s, st), s.threads[st.t].call) && Accounted(Next(s, st), s.data)
  {
    var s', k, i := Next(s, st), s.threads[st.t].call, s.data;
    MeetTyped(s, st);
    MeetMeans(s, st);
    assert Accounted(s, k) && Accounted(s, i);
    hide Next, Staged, Recorded;
    assert Paired(s', k) && Paired(s', i);
  }

  lemma StaysAccounted(s: State, s': State, k: nat, i: nat, j: nat)
    requires Typed(s) && Typed(s') && s'.calls == s.calls && i < |s.calls| && k < |s.calls| && j < |s.calls|
    requires Accounted(s, j) && j != k && j != i && k !in s.partner && i !in s.partner
    requires s'.partner == s.partner[k := i][i := k]
    requires s'.cells[j] == s.cells[j] && InProgress(s', j) == InProgress(s, j)
    requires j in s'.returned <==> j in s.returned
    requires j in s.returned ==> s'.returned[j] == s.returned[j]
    requires s.stage == 1 && s'.data == i && s'.lone == s.lone
    ensures Accounted(s', j)
  {
    if j in s.partner {
      assert Paired(s, j) && s.partner[j] != k && s.partner[j] != i;
    }
  }

  lemma MeetAccountsOthers(s: State, st: Step, j: nat)
    requires Inv(s) && Enabled(s, st) && st.Sync? && Meets(s, st) && j < |s.calls|
    requires j != s.threads[st.t].call && j != s.data
    ensures Typed(Next(s, st)) && |Next(s, st).calls| == |s.calls| && Accounted(Next(s, st), j)
  {
    var s', k, i := Next(s, st), s.threads[st.t].call, s.data;
    MeetTyped(s, st);
    MeetMeans(s, st);
    assert Accounted(s, k) && Accounted(s, i) && Accounted(s, j);
    hide Next, Staged, Recorded, Enabled;
    hide Paired;
    assert InProgress(s', j) == InProgress(s, j);
    StaysAccounted(s, s', k, i, j);
  }

  lemma MeetInv(s: State, st: Step)
    requires Inv(s) && Enabled(s, st) && st.Sync? && Meets(s, st)
    ensures Inv(Next(s, st))
  {
    var s' := Next(s, st);
    MeetTyped(s, st);
    MeetMeans(s, st);
    hide Next;
    forall j | 0 <= j < |s'.calls| ensures Accounted(s', j) {
      if j == s.threads[st.t].call || j == s.data { MeetAccountsPair(s, st); } else { MeetAccountsOthers(s, st, j); }
    }
  }

  lemma MoveOne(s: State, t: Tid, w: Where)
    requires t in s.threads && s.threads[t].In?
    ensures forall x: State :: x.threads == s.threads ==>
              Move(x, {t}, w) == x.(threads := s.threads[t := In(s.threads[t].call, w)])
  {
  }

  /** What happens when there is nobody to meet: the call becomes the initiator, or waits. */
  lemma WaitMeans(s: State, st: Step)
    requires Typed(s) && Enabled(s, st) && st.Sync? && !Meets(s, st)
    ensures var s', k := Next(s, st), s.threads[st.t].call;
      && s'.calls == s.calls && s'.cells == s.cells && s'.partner == s.partner && s'.returned == s.returned && s'.lone == s.lone
      && if s.stage == 0
         then s'.stage == 1 && s'.op == s.calls[k].dir && s'.data == k && s'.threads == s.threads[st.t := In(k, Offering)]
         else s'.stage == s.stage && s'.op == s.op && s'.data == s.data && s'.threads == s.threads[st.t := In(k, Waiting)]
  {
    MoveOne(s, st.t, Offering);
    MoveOne(s, st.t, Waiting);
    hide Move;
  }

  lemma WaitStaged(s: State, st: Step)
    requires Inv(s) && Enabled(s, st) && st.Sync? && !Meets(s, st)
    ensures Typed(Next(s, st)) && Staged(Next(s, st))
  {
    WaitMeans(s, st);
    assert Accounted(s, s.threads[st.t].call);
    hide Next, Recorded;
  }

  lemma WaitInv(s: State, st: Step)
    requires Inv(s) && Enabled(s, st) && st.Sync? && !Meets(s, st)
    ensures Inv(Next(s, st))
  {
    var s', k := Next(s, st), s.threads[st.t].call;
    WaitMeans(s, st);
    WaitStaged(s, st);
    hide Next, Staged, Enabled;
    forall j | 0 <= j < |s'.calls| ensures Accounted(s', j) {
      assert Accounted(s, j);
      assert InProgress(s', j) == InProgress(s, j);
    }
  }

  lemma FinishInv(s: State, st: Step)
    requires Inv(s) && Enabled(s, st) && st.Finish?
    ensures Inv(Next(s, st))
  {
    var s', t := Next(s, st), st.t;
    assert s.stage in {1, 2} && s.threads[t].call == s.data;
    forall j | 0 <= j < |s'.calls| ensures Accounted(s', j) {
      assert Accounted(s, j);
    }
  }

  lemma SpuriousInv(s: State, st: Step)
    requires Inv(s) && Enabled(s, st) && st.Spurious?
    ensures Inv(Next(s, st))
  {
    var s' := Next(s, st);
    forall j | 0 <= j < |s'.calls| ensures Accounted(s', j) { assert Accounted(s, j); }
  }

  lemma NextInv(s: State, st: Step)
    requires Inv(s) && Enabled(s, st)
    ensures Inv(Next(s, st))
  {
    match st
    case Begin(_, _, _) => BeginInv(s, st);
    case Sync(_, _) => if Meets(s, st) { MeetInv(s, st); } else { WaitInv(s, st); }
    case Finish(_) => FinishInv(s, st);
    case Spurious(_) => SpuriousInv(s, st);
  }

  // ---------- The waiting counters ----------

  function Waiters(s: State, d: Dir): set<Tid>
    requires Typed(s)
  {
    set t | t in s.threads && s.threads[t].In? && s.threads[t].at in {Waiting, Retrying} && Direction(s, t) == d
  }

  /** waiting_senders and waiting_receivers count the threads between the two updates around their wait. */
  ghost predicate Counts(s: State)
    requires Typed(s)
  {
    s.waitingSenders == |Waiters(s, Send)| && s.waitingReceivers == |Waiters(s, Recv)|
  }

  /** How a step changes the two counters. */
  lemma CountersMove(s: State, st: Step)
    requires Inv(s) && Enabled(s, st)
    ensures Inv(Next(s, st))
    ensures var s', t := Next(s, st), st.t;
      var n := (if Runs(s', t, Waiting) then 1 else 0) - (if Runs(s, t, Retrying) then 1 else 0);
      && s'.waitingSenders == s.waitingSenders + (if s.threads[t].In? && Direction(s, t) == Send then n else 0)
      && s'.waitingReceivers == s.waitingReceivers + (if s.threads[t].In? && Direction(s, t) == Recv then n else 0)
  {
    NextInv(s, st);
    if st.Sync? && Meets(s, st) { MeetMeans(s, st); }
    if st.Sync? && !Meets(s, st) { WaitMeans(s, st); }
    hide Staged, Recorded, Move, Exchange;
  }

  predicate Waits(s: State, t: Tid) { Runs(s, t, Waiting) || Runs(s, t, Retrying) }

  predicate Sleeps(s: State, t: Tid) { Runs(s, t, Offering) || Runs(s, t, Waiting) }

  /** What a step of t means for another thread: it may be woken, and nothing else. */
  predicate Undisturbed(s: State, s': State, u: Tid)
    requires u in s.threads
  {
    && u in s'.threads && s'.threads[u].In? == s.threads[u].In? && Waits(s', u) == Waits(s, u)
    && (s.threads[u].In? ==>
          && s'.threads[u].call == s.threads[u].call < |s.calls| <= |s'.calls|
          && s'.calls[s.threads[u].call] == s.calls[s.threads[u].call])
  }

  lemma ThreadsMove(s: State, st: Step, u: Tid)
    requires Inv(s) && Enabled(s, st) && u in s.threads && u != st.t
    ensures Undisturbed(s, Next(s, st), u)
  {
    hide Recorded, Exchange, Accounted;
    if st.Sync? && Meets(s, st) { MeetMeans(s, st); hide Next; }
    if st.Sync? && !Meets(s, st) { WaitMeans(s, st); hide Next; }
  }

  lemma StepKeepsThreads(s: State, st: Step)
    requires Inv(s) && Enabled(s, st)
    ensures Next(s, st).threads.Keys == s.threads.Keys && st.t in s.threads
  {
    if st.Sync? && Meets(s, st) { MeetMeans(s, st); hide Next; }
    if st.Sync? && !Meets(s, st) { WaitMeans(s, st); hide Next; }
    hide Recorded, Staged, Accounted;
  }

  lemma OtherWaiters(s: State, st: Step, d: Dir, u: Tid)
    requires Inv(s) && Enabled(s, st) && u in s.threads && u != st.t
    ensures Inv(Next(s, st)) && (u in Waiters(Next(s, st), d) <==> u in Waiters(s, d))
  {
    NextInv(s, st);
    ThreadsMove(s, st, u);
    hide Next, Enabled, Recorded, Staged;
    assert Waits(Next(s, st), u) == Waits(s, u);
  }

  /** Only the moving thread starts or stops waiting. */
  lemma WaitersMove(s: State, st: Step, d: Dir)
    requires Inv(s) && Enabled(s, st) && !st.Spurious?
    ensures Inv(Next(s, st))
    ensures Waiters(Next(s, st), d) ==
      (if Runs(Next(s, st), st.t, Waiting) && Direction(Next(s, st), st.t) == d
       then Waiters(s, d) + {st.t} else Waiters(s, d) - {st.t})
  {
    NextInv(s, st);
    StepKeepsThreads(s, st);
    MoverWaits(s, st);
    var s' := Next(s, st);
    forall u | u in s.threads && u != st.t ensures u in Waiters(s', d) <==> u in Waiters(s, d) {
      OtherWaiters(s, st, d, u);
    }
    hide Next, Enabled, Recorded, Staged;
    assert st.t in Waiters(s', d) <==> Runs(s', st.t, Waiting) && Direction(s', st.t) == d;
  }

  /** The moving thread was not asleep, and is now waiting only if it went to sleep. */
  lemma MoverWaits(s: State, st: Step)
    requires Inv(s) && Enabled(s, st) && !st.Spurious?
    ensures !Sleeps(s, st.t) && !Runs(Next(s, st), st.t, Retrying)
    ensures Runs(Next(s, st), st.t, Waiting) ==>
              && s.threads[st.t].In?
              && Next(s, st).threads[st.t].call == s.threads[st.t].call && Next(s, st).calls == s.calls
  {
    hide Recorded, Accounted;
    if st.Sync? && Meets(s, st) { MeetMeans(s, st); hide Next; }
    if st.Sync? && !Meets(s, st) { WaitMeans(s, st); hide Next; }
  }

  lemma WaitersSize(s: State, st: Step, d: Dir)
    requires Inv(s) && Enabled(s, st) && !st.Spurious?
    ensures Inv(Next(s, st))
    ensures |Waiters(Next(s, st), d)| == |Waiters(s, d)| +
      (if Runs(Next(s, st), st.t, Waiting) && Direction(Next(s, st), st.t) == d then 1 else 0) -
      (if Runs(s, st.t, Retrying) && Direction(s, st.t) == d then 1 else 0)
  {
    WaitersMove(s, st, d);
    MoverWaits(s, st);
    hide Next, Enabled, Recorded, Staged, Typed;
    assert st.t in Waiters(s, d) <==> Runs(s, st.t, Retrying) && Direction(s, st.t) == d;
  }

  lemma SpuriousCounts(s: State, st: Step)
    requires Inv(s) && Enabled(s, st) && Counts(s) && st.Spurious?
    ensures Typed(Next(s, st)) && Counts(Next(s, st))
  {
    NextInv(s, st);
    hide Staged, Recorded;
    assert Waiters(Next(s, st), Send) == Waiters(s, Send) && Waiters(Next(s, st), Recv) == Waiters(s, Recv);
  }

  lemma NextCounts(s: State, st: Step)
    requires Inv(s) && Enabled(s, st) && Counts(s)
    ensures Typed(Next(s, st)) && Counts(Next(s, st))
  {
    if st.Spurious? {
      SpuriousCounts(s, st);
    } else {
      CountersMove(s, st);
      MoverWaits(s, st);
      WaitersSize(s, st, Send);
      WaitersSize(s, st, Recv);
      hide Next, Enabled, Recorded, Staged, Typed, Waiters;
    }
  }

  // ---------- Runs ----------

  /** What is on record stays there: no call meets twice, returns twice or loses its partner. */
  ghost predicate Extends(s: State, s': State) {
    && |s.calls| <= |s'.calls| && (forall k :: 0 <= k < |s.calls| ==> s'.calls[k] == s.calls[k])
    && (forall k {:trigger k in s.partner} :: k in s.partner ==> k in s'.partner && s'.partner[k] == s.partner[k])
    && (forall k {:trigger k in s.returned} :: k in s.returned ==>
          k in s'.returned && s'.returned[k] == s.returned[k] && (k in s'.lone <==> k in s.lone))
  }

  lemma NextExtends(s: State, st: Step)
    requires Inv(s) && Enabled(s, st)
    ensures Extends(s, Next(s, st))
  {
    if st.Sync? && Meets(s, st) {
      MeetMeans(s, st);
      assert Accounted(s, s.threads[st.t].call) && Accounted(s, s.data);
      hide Next;
    } else if st.Sync? {
      WaitMeans(s, st);
      hide Next;
    } else if st.Finish? {
      assert Accounted(s, s.threads[st.t].call);
    }
  }

  ghost predicate IsRun(run: seq<State>, steps: seq<Step>) {
    && |run| == |steps| + 1 && Start(run[0])
    && forall i {:trigger steps[i]} :: 0 <= i < |steps| ==>
         Typed(run[i]) && Enabled(run[i], steps[i]) && run[i + 1] == Next(run[i], steps[i])
  }

  /** In every run, spurious wakeups included: each returned call met exactly one call, of the other direction,
      unless its initiator finished in stage 1; both of a pair end with the sender's value; what was on record
      at any earlier moment still is; and the counters are right. */
  lemma {:induction false} RunInv(run: seq<State>, steps: seq<Step>, i: nat)
    requires IsRun(run, steps) && i < |run|
    ensures Inv(run[i]) && Counts(run[i])
    ensures forall k {:trigger k in run[i].returned} :: k in run[i].returned ==> Served(run[i], k)
    ensures forall j {:trigger run[j]} :: 0 <= j <= i ==> Extends(run[j], run[i])
  {
    if i == 0 {
      StartInv(run[0]);
      assert Waiters(run[0], Send) == {} && Waiters(run[0], Recv) == {};
    } else {
      RunInv(run, steps, i - 1);
      var st := steps[i - 1];
      NextInv(run[i - 1], st);
      NextCounts(run[i - 1], st);
      NextExtends(run[i - 1], st);
      hide Next, Counts, Staged, Typed, Extends, Enabled;
      forall j | 0 <= j <= i ensures Extends(run[j], run[i]) {
        if j < i { ExtendsAll(run[j], run[i - 1], run[i]); } else { ExtendsItself(run[i]); }
      }
    }
    ReturnedArePaired(run[i]);
  }

  lemma ExtendsAll(a: State, b: State, c: State)
    requires Extends(a, b) && Extends(b, c)
    ensures Extends(a, c)
  {
  }

  lemma ExtendsItself(a: State)
    ensures Extends(a, a)
  {
  }

  /** Returned call k met a call and has the sender's value, or it met nobody and is marked as such. */
  ghost predicate Served(s: State, k: nat)
    requires k in s.returned
  {
    if k in s.lone then k !in s.partner else Paired(s, k) && s.returned[k] == PairValue(s, k)
  }

  lemma ReturnedArePaired(s: State)
    requires Inv(s)
    ensures forall k {:trigger k in s.returned} :: k in s.returned ==> Served(s, k)
  {
    forall k | k in s.returned ensures Served(s, k) {
      assert Accounted(s, k);
    }
  }

  // ---------- Nobody is stuck who could meet ----------

  ghost predicate Stuck(s: State) {
    forall t {:trigger s.threads[t]} :: t in s.threads && s.threads[t].In? ==> s.threads[t].at in {Offering, Waiting}
  }

  /** When no thread in a call can move, all that are left have one direction. */
  lemma StuckOnOneSide(s: State, t: Tid, u: Tid)
    requires Inv(s) && Stuck(s)
    requires t in s.threads && s.threads[t].In? && u in s.threads && s.threads[u].In?
    ensures Direction(s, t) == Direction(s, u)
  {
    if s.stage == 2 { InitiatorRuns(s); }
    assert s.threads[t].at in {Offering, Waiting} && s.threads[u].at in {Offering, Waiting};
  }

  lemma InitiatorRuns(s: State)
    requires Inv(s) && s.stage == 2
    ensures !Stuck(s)
  {
    assert s.threads[s.calls[s.data].thread].at == Met;
  }

  function Busy(s: State): set<Tid> { set t | t in s.threads && s.threads[t].In? }

  function Movable(s: State): set<Tid> { set t | t in Busy(s) && s.threads[t].at !in {Offering, Waiting} }

  function Measure(s: State): nat { |Busy(s)| * (|s.threads.Keys| + 1) + |Movable(s)| }

  /** Without new calls a run is finite: each step brings every call nearer its end or its wait. So the calls
      at hand reach a stuck state, and there, by StuckOnOneSide, no sender and receiver are left together. */
  lemma StepDescends(s: State, st: Step)
    requires Inv(s) && Enabled(s, st) && !st.Begin? && !st.Spurious?
    ensures Measure(Next(s, st)) < Measure(s)
  {
    var s', t := Next(s, st), st.t;
    StepKeepsThreads(s, st);
    BusyMove(s, st);
    MoverEnds(s, st);
    if t in Busy(s') { OthersStayAsleep(s, st); }
    MovableInside(s');
    hide *;
    SetsFall(Busy(s'), Busy(s), Movable(s'), Movable(s), s.threads.Keys, t);
  }

  lemma MovableInside(s: State)
    ensures Movable(s) <= s.threads.Keys
  {
    forall t | t in Movable(s) ensures t in s.threads.Keys { assert t in Busy(s); }
  }

  /** Fewer are busy, or as many and fewer can move. */
  lemma SetsFall<X>(b': set<X>, b: set<X>, m': set<X>, m: set<X>, all: set<X>, t: X)
    requires m' <= all && t in b && t in m
    requires b' == b - {t} || (b' == b && m' == m - {t})
    ensures |b'| * (|all| + 1) + |m'| < |b| * (|all| + 1) + |m|
  {
    SubsetSize(m', all);
    Lighter(|b'|, |b|, |all|, |m'|, |m|);
  }

  lemma Lighter(b': nat, b: nat, n: nat, m': nat, m: nat)
    requires m' <= n && (b' + 1 == b || (b' == b && m' < m))
    ensures b' * (n + 1) + m' < b * (n + 1) + m
  {
  }

  lemma BusyMove(s: State, st: Step)
    requires Inv(s) && Enabled(s, st) && !st.Begin? && !st.Spurious?
    ensures Busy(Next(s, st)) == if st.t in Busy(Next(s, st)) then Busy(s) else Busy(s) - {st.t}
    ensures st.t in Busy(s)
  {
    var s', t := Next(s, st), st.t;
    StepKeepsThreads(s, st);
    MoverEnds(s, st);
    forall u | u in s.threads && u != t ensures u in Busy(s') <==> u in Busy(s) { ThreadsMove(s, st, u); }
    hide Next, Staged, Recorded, Typed, Enabled;
  }

  lemma MoverEnds(s: State, st: Step)
    requires Inv(s) && Enabled(s, st) && !st.Begin? && !st.Spurious?
    ensures st.t in Movable(s) && (Next(s, st).threads[st.t] == Out || Sleeps(Next(s, st), st.t))
  {
    StepKeepsThreads(s, st);
    hide Recorded, Accounted;
    if st.Sync? && Meets(s, st) { MeetMeans(s, st); hide Next; }
    if st.Sync? && !Meets(s, st) { WaitMeans(s, st); hide Next; }
  }

  /** A call that goes to sleep wakes nobody. */
  lemma OthersStayAsleep(s: State, st: Step)
    requires Inv(s) && Enabled(s, st) && !st.Begin? && !st.Spurious? && st.t in Busy(Next(s, st))
    ensures Movable(Next(s, st)) == Movable(s) - {st.t}
  {
    hide Recorded, Accounted;
    if st.Sync? && Meets(s, st) { MeetMeans(s, st); hide Next; }
    if st.Sync? && !Meets(s, st) { WaitMeans(s, st); hide Next; }
  }

  // ---------- Spurious wakeups ----------

  /** The initiator's call returns with a partner if and only if the channel has reached stage 2 by then. */
  lemma FinishPairedIff(s: State, t: Tid)
    requires Inv(s) && Runs(s, t, Met)
    ensures var s', k := Next(s, Step.Finish(t)), s.threads[t].call;
      && s.stage in {1, 2} && k in s'.returned && (k in s'.partner <==> s.stage == 2) && (k in s'.lone <==> s.stage == 1)
  {
    assert Accounted(s, s.threads[t].call);
  }

  /** In stage 1 the initiator sleeps. */
  ghost predicate InitiatorSleeps(s: State)
    requires Typed(s)
  {
    s.stage == 1 ==> Runs(s, s.calls[s.data].thread, Offering)
  }

  /** The spurious wakeups that hit threads on rendezvous_wait_cv only. */
  predicate SparesInitiator(s: State, st: Step) { st.Spurious? ==> Runs(s, st.t, Waiting) }

  lemma InitiatorSleepsOn(s: State, st: Step)
    requires Inv(s) && Enabled(s, st) && InitiatorSleeps(s) && SparesInitiator(s, st)
    ensures Inv(Next(s, st)) && InitiatorSleeps(Next(s, st)) && Next(s, st).lone == s.lone
  {
    NextInv(s, st);
    hide Recorded, Accounted;
    if st.Sync? && Meets(s, st) { MeetMeans(s, st); hide Next; }
    if st.Sync? && !Meets(s, st) { WaitMeans(s, st); hide Next; }
  }

  /** When no spurious wakeup hits an initiator, each returned call of the run met exactly one call, and both
      end with the sender's value. */
  lemma {:induction false} RunPairs(run: seq<State>, steps: seq<Step>, i: nat)
    requires IsRun(run, steps) && i < |run|
    requires forall j {:trigger steps[j]} :: 0 <= j < |steps| ==> SparesInitiator(run[j], steps[j])
    ensures Inv(run[i]) && InitiatorSleeps(run[i]) && run[i].lone == {}
    ensures forall k {:trigger k in run[i].returned} :: k in run[i].returned ==>
              Paired(run[i], k) && run[i].returned[k] == PairValue(run[i], k)
  {
    RunInv(run, steps, i);
    if i > 0 {
      RunPairs(run, steps, i - 1);
      assert SparesInitiator(run[i - 1], steps[i - 1]);
      hide Inv, Next, Enabled, Typed, InitiatorSleeps;
      InitiatorSleepsOn(run[i - 1], steps[i - 1]);
    }
    hide Inv, Typed, Paired, InitiatorSleeps;
    forall k | k in run[i].returned ensures Paired(run[i], k) && run[i].returned[k] == PairValue(run[i], k) {
      assert Served(run[i], k);
    }
  }

  predicate FinishesAlone(s: State, st: Step) { st.Finish? && s.stage == 1 }

  /** In any run, some call has returned SUCCESS without a partner if and only if an initiator has finished in
      stage 1. */
  lemma {:induction false} RunUnpairedIff(run: seq<State>, steps: seq<Step>, i: nat)
    requires IsRun(run, steps) && i < |run|
    ensures (exists k {:trigger k in run[i].returned} :: k in run[i].returned && k !in run[i].partner) <==>
            (exists j {:trigger steps[j]} :: 0 <= j < i && FinishesAlone(run[j], steps[j]))
  {
    RunInv(run, steps, i);
    UnpairedAreLone(run[i]);
    LoneIff(run, steps, i);
  }

  lemma UnpairedAreLone(s: State)
    requires Inv(s)
    ensures (exists k {:trigger k in s.returned} :: k in s.returned && k !in s.partner) <==> s.lone != {}
  {
    if k :| k in s.returned && k !in s.partner { assert Accounted(s, k) && k in s.lone; }
    if k :| k in s.lone { assert Accounted(s, k) && k in s.returned; }
  }

  lemma {:induction false} LoneIff(run: seq<State>, steps: seq<Step>, i: nat)
    requires IsRun(run, steps) && i < |run|
    ensures run[i].lone != {} <==> exists j {:trigger steps[j]} :: 0 <= j < i && FinishesAlone(run[j], steps[j])
  {
    if i > 0 {
      LoneIff(run, steps, i - 1);
      var st := steps[i - 1];
      RunInv(run, steps, i - 1);
      LoneGrows(run[i - 1], st);
      hide Inv, Next, Enabled, Typed, Start, FinishesAlone;
    }
  }

  lemma LoneGrows(s: State, st: Step)
    requires Inv(s) && Enabled(s, st)
    ensures Next(s, st).lone != {} <==> s.lone != {} || FinishesAlone(s, st)
  {
    hide Recorded, Staged, Accounted;
    if st.Sync? && Meets(s, st) { MeetMeans(s, st); hide Next; }
    if st.Sync? && !Meets(s, st) { WaitMeans(s, st); hide Next; }
  }

  lemma NobodyOffers(s: State)
    requires Inv(s) && (s.stage == 1 ==> Runs(s, s.calls[s.data].thread, Met))
    ensures At(s, Offering) == {}
  {
    hide Recorded;
    forall u ensures u !in At(s, Offering) {
      if u in s.threads && s.threads[u].In? { assert s.threads[u].at != Offering; }
    }
  }

  /** From any fresh channel: one call, a spurious wakeup, and the call returns SUCCESS having met nobody. */
  lemma SpuriousInitiatorMeetsNobody(s: State, t: Tid, d: Dir, v: Value) returns (run: seq<State>, steps: seq<Step>)
    requires Start(s) && t in s.threads
    ensures IsRun(run, steps) && run[0] == s && |steps| == 4 && steps[2] == Step.Spurious(t)
    ensures 0 in run[4].returned && 0 !in run[4].partner
  {
    StartInv(s);
    var s1 := Next(s, Step.Begin(t, d, v));
    NextInv(s, Step.Begin(t, d, v));
    NobodyOffers(s1);
    var sync := Step.Sync(t, {});
    WaitMeans(s1, sync);
    var s2 := Next(s1, sync);
    NextInv(s1, sync);
    var s3 := Next(s2, Step.Spurious(t));
    NextInv(s2, Step.Spurious(t));
    var s4 := Next(s3, Step.Finish(t));
    FinishPairedIff(s3, t);
    hide Next, Inv, Typed, Enabled, Start;
    steps := [Step.Begin(t, d, v), sync, Step.Spurious(t), Step.Finish(t)];
    run := [s, s1, s2, s3, s4];
  }

  /** Yet a spuriously woken initiator is not lost: a complementary call may still come before it finishes, and
      then it returns with that partner. */
  lemma SpuriousInitiatorMayStillMeet(s: State, u: Tid)
    requires Inv(s) && s.stage == 1 && Runs(s, s.calls[s.data].thread, Met) && AtDoor(s, u) && Direction(s, u) != s.op
    ensures Enabled(s, Step.Sync(u, {}))
    ensures var s' := Next(s, Step.Sync(u, {})); s.data in s'.partner && s'.partner[s.data] == s.threads[u].call
  {
    NobodyOffers(s);
    MeetMeans(s, Step.Sync(u, {}));
  }
}

/** Multi-level feedback serves each level in round-robin order, by the time of entering the level: which
    events keep that order, and which break it. */
module LevelOrder {
  import opened Basics
  import opened Scheduling
  import opened SchedulingProofs
  import opened MlfqProofs
  import opened SimulatedRuns

  /** A run with a record of when each job last entered a level; `clock` numbers the entries. */
  datatype Stamped = Stamped(world: World, entry: seq<nat>, clock: nat)

  /** Who enters a level at the next event: the arriving job, or a job that had a slice and needs more. A job
      that is preempted stays on its level. */
  function Entering(tr: seq<Job>, w: World): Option<nat>
    requires Good(tr, w) && w.info.Mlfq? && !Done(tr, w)
  {
    if !CompletionNext(tr, w) then Some(w.arrived)
    else if w.info.running.Some? && w.left[w.info.running.value.job] > 1 then Some(w.info.running.value.job)
    else None
  }

  function StampedStep(tr: seq<Job>, x: Stamped): Stamped
    requires Good(tr, x.world) && x.world.info.Mlfq? && !Done(tr, x.world) && |x.entry| == |tr|
  {
    var j := Entering(tr, x.world);
    if j.Some? then Stamped(Step(tr, x.world), x.entry[j.value := x.clock], x.clock + 1)
    else Stamped(Step(tr, x.world), x.entry, x.clock)
  }

  // ---------- Order ----------

  /** Task t entered its level before task u entered its. */
  predicate Earlier(entry: seq<nat>, t: Task, u: Task) {
    t.job < |entry| && u.job < |entry| && entry[t.job] < entry[u.job]
  }

  ghost predicate QueueInOrder(entry: seq<nat>, q: seq<Task>) {
    forall i, k {:trigger Earlier(entry, q[i], q[k])} :: 0 <= i < k < |q| ==> Earlier(entry, q[i], q[k])
  }

  ghost predicate AllInOrder(entry: seq<nat>, qs: seq<seq<Task>>) {
    forall l {:trigger qs[l]} :: 0 <= l < |qs| ==> QueueInOrder(entry, qs[l])
  }

  ghost predicate AheadOf(entry: seq<nat>, t: Task, q: seq<Task>) {
    forall i {:trigger q[i]} :: 0 <= i < |q| ==> Earlier(entry, t, q[i])
  }

  /** Each level is served in the order in which its tasks entered it: they wait in that order, and the
      running task entered its level before those who wait there. */
  ghost predicate InEntryOrder(x: Stamped)
    requires x.world.info.Mlfq?
  {
    var Mlfq(qs, r, _) := x.world.info;
    && AllInOrder(x.entry, qs)
    && (r.Some? ==> r.value.level < |qs| && AheadOf(x.entry, r.value, qs[r.value.level]))
  }

  /** Every job that has arrived entered its level before now. */
  ghost predicate StampsPast(tr: seq<Job>, x: Stamped) {
    |x.entry| == |tr| && forall j {:trigger x.entry[j]} :: 0 <= j < x.world.arrived <= |tr| ==> x.entry[j] < x.clock
  }

  /** The event that breaks the order: an arrival while a task runs below the top level and others wait on
      its level. */
  predicate Overtakes(tr: seq<Job>, w: World)
    requires Good(tr, w) && w.info.Mlfq?
  {
    var Mlfq(qs, r, _) := w.info;
    !CompletionNext(tr, w) && w.arrived < |tr| && r.Some? && 0 < r.value.level && qs[r.value.level] != []
  }

  // ---------- What keeps the order ----------

  lemma TailInOrder(entry: seq<nat>, q: seq<Task>, t: Task)
    requires QueueInOrder(entry, q) && forall i {:trigger q[i]} :: 0 <= i < |q| ==> Earlier(entry, q[i], t)
    ensures QueueInOrder(entry, q + [t])
  {
    var r := q + [t];
    forall i, k | 0 <= i < k < |r| ensures Earlier(entry, r[i], r[k]) {
      assert r[i] == q[i];
      if k < |q| { assert r[k] == q[k] && Earlier(entry, q[i], q[k]); }
    }
  }

  lemma EnqueueInOrder(entry: seq<nat>, qs: seq<seq<Task>>, t: Task)
    requires AllInOrder(entry, qs) && t.level < |qs|
    requires forall i {:trigger qs[t.level][i]} :: 0 <= i < |qs[t.level]| ==> Earlier(entry, qs[t.level][i], t)
    ensures AllInOrder(entry, Enqueue(qs, t))
  {
    TailInOrder(entry, qs[t.level], t);
  }

  /** schedule_next takes the first of a level: the rest entered later. */
  lemma DispatchInOrder(entry: seq<nat>, clock: nat, w: World)
    requires w.info.Mlfq? && w.due.None? && w.info.running.None? && NamedInfo(|w.left|, w.info)
    requires AllInOrder(entry, w.info.queues)
    ensures Dispatch(w).info.Mlfq? && InEntryOrder(Stamped(Dispatch(w), entry, clock))
  {
    var qs := w.info.queues;
    var l := Top(qs, 0);
    if l < |qs| {
      DispatchChooses(w, l);
      var q, t := qs[l], qs[l][0];
      assert t.level == l;
      hide Dispatch, NamedInfo;
      forall i, k | 0 <= i < k < |q[1..]| ensures Earlier(entry, q[1..][i], q[1..][k]) {
        assert Earlier(entry, q[i + 1], q[k + 1]);
      }
      forall i | 0 <= i < |q[1..]| ensures Earlier(entry, t, q[1..][i]) { assert Earlier(entry, q[0], q[i + 1]); }
    }
  }

  /** A new stamp for a job that waits nowhere changes no order. */
  lemma RestampInOrder(entry: seq<nat>, qs: seq<seq<Task>>, j: nat, c: nat)
    requires j < |entry| && AllInOrder(entry, qs)
    requires forall l, i {:trigger qs[l][i]} :: 0 <= l < |qs| && 0 <= i < |qs[l]| ==> qs[l][i].job != j
    ensures AllInOrder(entry[j := c], qs)
  {
    forall l | 0 <= l < |qs| ensures QueueInOrder(entry[j := c], qs[l]) {
      var q := qs[l];
      assert QueueInOrder(entry, q);
      forall i, k | 0 <= i < k < |q| ensures Earlier(entry[j := c], q[i], q[k]) {
        assert Earlier(entry, q[i], q[k]) && qs[l][i].job != j && qs[l][k].job != j;
      }
    }
  }

  // ---------- One event ----------

  /** Waiting tasks have arrived, and the running task is none of them. */
  lemma QueuedArrived(tr: seq<Job>, w: World)
    requires Inv(tr, w) && w.info.Mlfq?
    ensures Good(tr, w)
    ensures forall l, i {:trigger w.info.queues[l][i]} :: 0 <= l < |w.info.queues| && 0 <= i < |w.info.queues[l]| ==>
      && w.info.queues[l][i].job < w.arrived
      && (w.info.running.Some? ==> w.info.queues[l][i].job != w.info.running.value.job)
    ensures w.info.running.Some? ==> w.info.running.value.job < w.arrived
  {
    var qs: seq<seq<Task>>, r := w.info.queues, w.info.running;
    hide Earliest, Horizon, GoodOutput, Timely, Sane;
    if r.Some? {
      assert r.value.job in InSystem(w.info) && Once(w, r.value.job);
    }
    forall l, i | 0 <= l < |qs| && 0 <= i < |qs[l]|
      ensures qs[l][i].job < w.arrived && (r.Some? ==> qs[l][i].job != r.value.job)
    {
      TaskIsCounted(qs, l, i);
      assert Once(w, qs[l][i].job);
    }
  }

  /** The record after an arrival: the newcomer's entry is the latest. */
  function ArrivalEntry(x: Stamped): seq<nat>
    requires x.world.arrived < |x.entry|
  {
    x.entry[x.world.arrived := x.clock]
  }

  lemma JoinedInOrder(tr: seq<Job>, x: Stamped)
    requires Inv(tr, x.world) && x.world.info.Mlfq? && StampsPast(tr, x) && InEntryOrder(x) && x.world.arrived < |tr|
    ensures Good(tr, x.world)
    ensures AllInOrder(ArrivalEntry(x), Joined(tr, x.world).info.queues)
  {
    var w, j := x.world, x.world.arrived;
    QueuedArrived(tr, w);
    hide Inv;
    RestampInOrder(x.entry, w.info.queues, j, x.clock);
    EnqueueInOrder(ArrivalEntry(x), w.info.queues, Task(j, 0));
  }

  lemma ArrivalAtRest(tr: seq<Job>, x: Stamped)
    requires Inv(tr, x.world) && x.world.info.Mlfq? && StampsPast(tr, x) && InEntryOrder(x)
    requires !CompletionNext(tr, x.world) && x.world.arrived < |tr| && x.world.info.running.None?
    ensures Good(tr, x.world) && StampedStep(tr, x).world.info.Mlfq? && InEntryOrder(StampedStep(tr, x))
  {
    var w1 := Joined(tr, x.world);
    JoinedInOrder(tr, x);
    JoinedIsRight(tr, x.world);
    assert Arrive(tr, x.world) == Dispatch(w1);
    hide Inv, InEntryOrder, Dispatch, Arrive, AllInOrder;
    DispatchInOrder(ArrivalEntry(x), x.clock + 1, w1);
  }

  lemma ArrivalBehind(tr: seq<Job>, x: Stamped)
    requires Inv(tr, x.world) && x.world.info.Mlfq? && StampsPast(tr, x) && InEntryOrder(x)
    requires !CompletionNext(tr, x.world) && x.world.arrived < |tr|
    requires x.world.info.running.Some? && x.world.info.running.value.level == 0
    ensures Good(tr, x.world) && StampedStep(tr, x).world.info.Mlfq? && InEntryOrder(StampedStep(tr, x))
  {
    var w, w1, t := x.world, Joined(tr, x.world), x.world.info.running.value;
    QueuedArrived(tr, w);
    JoinedInOrder(tr, x);
    assert Arrive(tr, w) == w1;
    hide Inv, Arrive;
    var q: seq<Task>, q' := w.info.queues[0], w1.info.queues[0];
    forall i | 0 <= i < |q'| ensures Earlier(ArrivalEntry(x), t, q'[i]) {
      if i < |q| { assert q'[i] == q[i] && Earlier(x.entry, t, q[i]) && q[i].job != w.arrived; }
    }
  }

  /** A preemption puts the running task last on its level: that is its place exactly if nobody waits there. */
  lemma ArrivalPreempts(tr: seq<Job>, x: Stamped)
    requires Inv(tr, x.world) && x.world.info.Mlfq? && StampsPast(tr, x) && InEntryOrder(x)
    requires !CompletionNext(tr, x.world) && x.world.arrived < |tr|
    requires x.world.info.running.Some? && 0 < x.world.info.running.value.level
    ensures Good(tr, x.world) && StampedStep(tr, x).world.info.Mlfq?
    ensures InEntryOrder(StampedStep(tr, x)) <==> !Overtakes(tr, x.world)
  {
    var w, t := x.world, x.world.info.running.value;
    QueuedArrived(tr, w);
    JoinedInOrder(tr, x);
    PreemptDispatches(tr, w);
    PreemptedGoesLast(tr, w);
    var w1 := Joined(tr, w);
    var w2 := w1.(due := None, info := Mlfq(Enqueue(w1.info.queues, t), None, w.info.lastTime));
    var q: seq<Task> := w.info.queues[t.level];
    assert q == w1.info.queues[t.level];
    if q == [] {
      EnqueueInOrder(ArrivalEntry(x), w1.info.queues, t);
      hide Inv, InEntryOrder, Dispatch, Arrive, AllInOrder;
      DispatchInOrder(ArrivalEntry(x), x.clock + 1, w2);
    } else {
      var x' := StampedStep(tr, x);
      var q': seq<Task> := x'.world.info.queues[t.level];
      assert q' == q + [t] && Earlier(x.entry, t, q[0]);
      assert q'[0] == q[0] && q'[|q|] == t;
      hide Inv, Arrive;
      assert Earlier(x.entry, t, q[0]) && !Earlier(x'.entry, q'[0], q'[|q|]);
    }
  }

  /** The slice's owner enters the next level last of all, or is done; either way the rest keep their places. */
  lemma CompletionInOrder(tr: seq<Job>, x: Stamped)
    requires Inv(tr, x.world) && x.world.info.Mlfq? && StampsPast(tr, x) && InEntryOrder(x)
    requires CompletionNext(tr, x.world)
    ensures Good(tr, x.world) && StampedStep(tr, x).world.info.Mlfq? && InEntryOrder(StampedStep(tr, x))
  {
    var w, w1 := x.world, Written(tr, x.world);
    QueuedArrived(tr, w);
    ServedInOrder(tr, x);
    CompleteDispatches(tr, w);
    var x' := StampedStep(tr, x);
    assert x'.world == Dispatch(w1);
    hide Inv, InEntryOrder, Dispatch, Complete, AllInOrder;
    DispatchInOrder(x'.entry, x'.clock, w1);
  }

  lemma ServedInOrder(tr: seq<Job>, x: Stamped)
    requires Inv(tr, x.world) && x.world.info.Mlfq? && StampsPast(tr, x) && InEntryOrder(x)
    requires CompletionNext(tr, x.world)
    ensures Good(tr, x.world) && x.world.info.running.Some?
    ensures AllInOrder(StampedStep(tr, x).entry, Served(tr, x.world).info.queues)
  {
    var w := x.world;
    QueuedArrived(tr, w);
    assert w.info.running.Some?;
    hide Inv;
    var t, qs := w.info.running.value, w.info.queues;
    if w.left[t.job] > 1 {
      var t' := t.(level := Min(t.level + 1, LEVELS - 1));
      var e := x.entry[t.job := x.clock];
      RestampInOrder(x.entry, qs, t.job, x.clock);
      forall i | 0 <= i < |qs[t'.level]| ensures Earlier(e, qs[t'.level][i], t') {
        assert qs[t'.level][i].job < w.arrived;
      }
      EnqueueInOrder(e, qs, t');
    }
  }

  lemma StampsStayPast(tr: seq<Job>, x: Stamped)
    requires Inv(tr, x.world) && x.world.info.Mlfq? && StampsPast(tr, x) && !Done(tr, x.world)
    ensures Good(tr, x.world) && StampsPast(tr, StampedStep(tr, x))
  {
    StepAdvances(tr, x.world);
    ArrivedCounts(tr, x.world);
    hide Inv, Step;
  }

  lemma ArrivedCounts(tr: seq<Job>, w: World)
    requires Inv(tr, w) && !Done(tr, w)
    ensures Good(tr, w) && Step(tr, w).arrived == w.arrived + if CompletionNext(tr, w) then 0 else 1
  {
    if CompletionNext(tr, w) { CompleteCompletes(tr, w); } else { ArriveArrives(tr, w); }
    hide Inv, Complete, Arrive;
  }

  /** In an ordered state an event keeps every level in the order of entry if and only if it is not an arrival
      while a task runs below the top level with others waiting on its level. */
  lemma KeepsEntryOrderIff(tr: seq<Job>, x: Stamped)
    requires Inv(tr, x.world) && x.world.info.Mlfq? && !Done(tr, x.world) && StampsPast(tr, x) && InEntryOrder(x)
    ensures Good(tr, x.world) && StampedStep(tr, x).world.info.Mlfq?
    ensures InEntryOrder(StampedStep(tr, x)) <==> !Overtakes(tr, x.world)
  {
    hide InEntryOrder, StampsPast, StampedStep, Inv;
    InvIsGood(tr, x.world);
    if CompletionNext(tr, x.world) {
      CompletionInOrder(tr, x);
    } else if x.world.info.running.None? {
      ArrivalAtRest(tr, x);
    } else if x.world.info.running.value.level == 0 {
      ArrivalBehind(tr, x);
    } else {
      ArrivalPreempts(tr, x);
    }
  }

  // ---------- Whole runs ----------

  lemma StampedAdvances(tr: seq<Job>, x: Stamped)
    requires Inv(tr, x.world) && x.world.info.Mlfq? && StampsPast(tr, x) && !Done(tr, x.world)
    ensures Good(tr, x.world)
    ensures var x' := StampedStep(tr, x); Inv(tr, x'.world) && x'.world.info.Mlfq? && StampsPast(tr, x')
  {
    StepAdvances(tr, x.world);
    StampsStayPast(tr, x);
    InvIsGood(tr, x.world);
    hide Inv, Step, StampsPast;
  }

  /** The run with its record after at most n events. */
  ghost function StampedAfter(tr: seq<Job>, x: Stamped, n: nat): (r: Stamped)
    requires Inv(tr, x.world) && x.world.info.Mlfq? && StampsPast(tr, x)
    ensures Inv(tr, r.world) && r.world.info.Mlfq? && StampsPast(tr, r)
    ensures r.world == After(tr, x.world, n)
    decreases n
  {
    hide Inv, Step, StampsPast, Good;
    InvIsGood(tr, x.world);
    if n == 0 || Done(tr, x.world) then x
    else
      StampedAdvances(tr, x);
      StepAdvances(tr, x.world);
      StampedAfter(tr, StampedStep(tr, x), n - 1)
  }

  lemma Sized(tr: seq<Job>, x: Stamped)
    requires Inv(tr, x.world) && StampsPast(tr, x)
    ensures Good(tr, x.world) && |x.entry| == |tr|
  {
  }

  lemma {:induction false} StampedAfterOneMore(tr: seq<Job>, x: Stamped, n: nat)
    requires Inv(tr, x.world) && x.world.info.Mlfq? && StampsPast(tr, x)
    ensures var y := StampedAfter(tr, x, n);
      && Good(tr, y.world) && |y.entry| == |tr|
      && StampedAfter(tr, x, n + 1) == if Done(tr, y.world) then y else StampedStep(tr, y)
    decreases n
  {
    hide Inv, Step, StampsPast, Good, StampedStep;
    Sized(tr, StampedAfter(tr, x, n));
    Sized(tr, x);
    if !Done(tr, x.world) {
      StampedAdvances(tr, x);
      var x' := StampedStep(tr, x);
      if n > 0 {
        StampedAfterOneMore(tr, x', n - 1);
      } else {
        assert StampedAfter(tr, x', 0) == x';
        assert StampedAfter(tr, x, 1) == StampedAfter(tr, x', 0);
      }
    }
  }

  /** The state and record after at most n events of a trace. */
  ghost function Reached(tr: seq<Job>, n: nat): (x: Stamped)
    requires Valid(tr)
    ensures Inv(tr, x.world) && x.world.info.Mlfq? && StampsPast(tr, x)
    ensures x.world == After(tr, Started(tr, MLFQ), n)
  {
    StampedAfter(tr, First(tr), n)
  }

  ghost function First(tr: seq<Job>): (x: Stamped)
    requires Valid(tr)
    ensures Inv(tr, x.world) && x.world.info.Mlfq? && StampsPast(tr, x) && InEntryOrder(x)
    ensures x.world == Started(tr, MLFQ)
  {
    Stamped(Started(tr, MLFQ), seq(|tr|, _ => 0), 0)
  }

  ghost predicate OrderedAt(tr: seq<Job>, n: nat)
    requires Valid(tr)
  {
    InEntryOrder(Reached(tr, n))
  }

  ghost predicate OvertakenAt(tr: seq<Job>, n: nat)
    requires Valid(tr)
  {
    Good(tr, Reached(tr, n).world) && Overtakes(tr, Reached(tr, n).world)
  }

  ghost predicate OrderedUpTo(tr: seq<Job>, n: nat)
    requires Valid(tr)
  {
    forall k: nat {:trigger OrderedAt(tr, k)} :: k <= n ==> OrderedAt(tr, k)
  }

  ghost predicate OvertakenBefore(tr: seq<Job>, n: nat)
    requires Valid(tr)
  {
    exists k: nat {:trigger OvertakenAt(tr, k)} :: k < n && OvertakenAt(tr, k)
  }

  /** A run serves every level in the order of entry up to its n-th event if and only if none of its first n
      events is an arrival that finds a task running below the top level with others waiting on its level. */
  lemma {:induction false} OrderedRunIff(tr: seq<Job>, n: nat)
    requires Valid(tr)
    ensures OrderedUpTo(tr, n) <==> !OvertakenBefore(tr, n)
  {
    hide OrderedAt, OvertakenAt, Valid;
    if n == 0 {
      OrderedFirst(tr);
    } else {
      OrderedRunIff(tr, n - 1);
      if OrderedUpTo(tr, n - 1) {
        assert OrderedAt(tr, n - 1);
        NextOrderedIff(tr, n - 1);
        if OvertakenAt(tr, n - 1) {
          assert !OrderedAt(tr, n) && OvertakenBefore(tr, n);
        } else {
          assert OrderedAt(tr, n) && OrderedUpTo(tr, n);
        }
      } else {
        var k: nat :| k <= n - 1 && !OrderedAt(tr, k);
      }
    }
  }

  lemma OrderedFirst(tr: seq<Job>)
    requires Valid(tr)
    ensures OrderedAt(tr, 0)
  {
    hide Valid, Inv, InEntryOrder;
    assert Reached(tr, 0) == First(tr);
  }

  lemma NextOrderedIff(tr: seq<Job>, n: nat)
    requires Valid(tr) && OrderedAt(tr, n)
    ensures OrderedAt(tr, n + 1) <==> !OvertakenAt(tr, n)
  {
    var x := Reached(tr, n);
    StampedAfterOneMore(tr, First(tr), n);
    hide Inv, InEntryOrder, StampedStep, StampedAfter, StampsPast, Good, Valid;
    if !Done(tr, x.world) { KeepsEntryOrderIff(tr, x); }
  }

  // ---------- A run that breaks the order ----------

  const THREE: seq<Job> := [Job(0, 0, 3), Job(1, 0, 3), Job(2, 2, 1)]

  function Levels(q0: seq<Task>, q1: seq<Task>): seq<seq<Task>> {
    [q0, q1, [], [], [], [], [], [], [], []]
  }

  lemma LevelsMove(q0: seq<Task>, q1: seq<Task>, j: nat)
    ensures Enqueue(Levels(q0, q1), Task(j, 0)) == Levels(q0 + [Task(j, 0)], q1)
    ensures Enqueue(Levels(q0, q1), Task(j, 1)) == Levels(q0, q1 + [Task(j, 1)])
    ensures q0 != [] ==> Top(Levels(q0, q1), 0) == 0
    ensures q0 == [] && q1 != [] ==> Top(Levels(q0, q1), 0) == 1
    ensures Levels(q0, q1)[0] == q0 && Levels(q0, q1)[1] == q1
  {
  }

  lemma LevelsShed(q0: seq<Task>, q1: seq<Task>)
    ensures q0 != [] ==> Levels(q0, q1)[0 := q0[1..]] == Levels(q0[1..], q1)
    ensures q1 != [] ==> Levels(q0, q1)[1 := q1[1..]] == Levels(q0, q1[1..])
  {
  }

  // The states between the first events.
  const AT0: World := World(0, None, [3, 3, 1], Mlfq(Levels([], []), None, 0), 0, [])
  const AT1: World := World(0, Some(1), [3, 3, 1], Mlfq(Levels([], []), Some(Task(0, 0)), 0), 1, [])
  const AT2: World := World(0, Some(1), [3, 3, 1], Mlfq(Levels([Task(1, 0)], []), Some(Task(0, 0)), 0), 2, [])
  const AT3: World := World(1, Some(2), [2, 3, 1], Mlfq(Levels([], [Task(0, 1)]), Some(Task(1, 0)), 1), 2, [])
  const AT4: World := World(2, Some(3), [2, 2, 1], Mlfq(Levels([], [Task(1, 1)]), Some(Task(0, 1)), 2), 2, [])

  lemma ThreeIsValid()
    ensures Valid(THREE)
  {
    assert FinishAll(THREE, 3, 7) == 7;
    assert FinishAll(THREE, 2, 6) == 7;
    assert FinishAll(THREE, 1, 3) == 7;
    assert FinalTime(THREE) == 7;
  }

  lemma FirstEvents()
    ensures Initial(THREE, MLFQ) == AT0
    ensures Good(THREE, AT0) && !Done(THREE, AT0) && Step(THREE, AT0) == AT1
    ensures Good(THREE, AT1) && !Done(THREE, AT1) && Step(THREE, AT1) == AT2
  {
    assert Levels([], []) == seq(LEVELS, _ => []);
    assert Sizes(THREE) == [3, 3, 1];
    var a, b := Task(0, 0), Task(1, 0);
    assert [] + [a] == [a] && [a][1..] == [] && [] + [b] == [b];
    LevelsMove([], [], 0);
    LevelsMove([a], [], 0);
    LevelsShed([a], []);
    LevelsMove([], [], 1);
  }

  lemma ThirdEvent()
    ensures Good(THREE, AT2) && !Done(THREE, AT2) && Step(THREE, AT2) == AT3
  {
    var b, c := Task(1, 0), Task(0, 1);
    assert [] + [c] == [c] && [b][1..] == [];
    LevelsMove([b], [], 0);
    LevelsMove([b], [c], 0);
    LevelsShed([b], [c]);
  }

  lemma FourthEvent()
    ensures Good(THREE, AT3) && !Done(THREE, AT3) && Step(THREE, AT3) == AT4
  {
    var c, d := Task(0, 1), Task(1, 1);
    assert [c] + [d] == [c, d] && [c, d][1..] == [d];
    LevelsMove([], [c], 1);
    LevelsMove([], [c, d], 0);
    LevelsShed([], [c, d]);
  }

  lemma {:induction false} AfterOneMore(tr: seq<Job>, w: World, n: nat)
    requires Inv(tr, w) && !Done(tr, After(tr, w, n))
    ensures Good(tr, After(tr, w, n)) && After(tr, w, n + 1) == Step(tr, After(tr, w, n))
    decreases n
  {
    hide Inv, Step, Good;
    InvIsGood(tr, w);
    InvIsGood(tr, After(tr, w, n));
    if !Done(tr, w) {
      StepAdvances(tr, w);
      if n > 0 {
        AfterOneMore(tr, Step(tr, w), n - 1);
      } else {
        assert After(tr, Step(tr, w), 0) == Step(tr, w);
      }
    }
  }

  lemma FourStates()
    requires Valid(THREE)
    ensures var w := Started(THREE, MLFQ);
      && After(THREE, w, 0) == AT0 && After(THREE, w, 1) == AT1 && After(THREE, w, 2) == AT2
      && After(THREE, w, 3) == AT3 && After(THREE, w, 4) == AT4
  {
    hide Inv, Step, Good, Valid, Initial;
    var w := Started(THREE, MLFQ);
    FirstEvents();
    ThirdEvent();
    FourthEvent();
    assert After(THREE, w, 0) == AT0;
    AfterOneMore(THREE, w, 0);
    AfterOneMore(THREE, w, 1);
    AfterOneMore(THREE, w, 2);
    AfterOneMore(THREE, w, 3);
  }

  lemma OnlyTheFourth()
    ensures Good(THREE, AT0) && !Overtakes(THREE, AT0) && Good(THREE, AT1) && !Overtakes(THREE, AT1)
    ensures Good(THREE, AT2) && !Overtakes(THREE, AT2) && Good(THREE, AT3) && !Overtakes(THREE, AT3)
    ensures Good(THREE, AT4) && Overtakes(THREE, AT4)
  {
  }

  lemma FirstOvertaking()
    ensures Valid(THREE) && !OvertakenBefore(THREE, 4) && OvertakenAt(THREE, 4)
  {
    ThreeIsValid();
    FourStates();
    OnlyTheFourth();
    hide *;
    hide Valid, Inv, After, Started, Good, Overtakes, InEntryOrder;
    forall k: nat | k < 4 ensures !OvertakenAt(THREE, k) {
      assert k == 0 || k == 1 || k == 2 || k == 3;
      OvertakenMeans(THREE, k);
    }
    OvertakenMeans(THREE, 4);
    NotBefore(THREE, 4);
  }

  lemma OvertakenMeans(tr: seq<Job>, k: nat)
    requires Valid(tr)
    ensures var w := After(tr, Started(tr, MLFQ), k);
      w.info.Mlfq? && (OvertakenAt(tr, k) <==> Good(tr, w) && Overtakes(tr, w))
  {
    hide Valid, Inv, After, Started, Good, Overtakes;
  }

  lemma NotBefore(tr: seq<Job>, n: nat)
    requires Valid(tr) && forall k: nat {:trigger OvertakenAt(tr, k)} :: k < n ==> !OvertakenAt(tr, k)
    ensures !OvertakenBefore(tr, n)
  {
    hide Valid, OvertakenAt;
  }

  lemma FifthEvent()
    requires Good(THREE, AT4) && Sane(THREE, AT4)
    ensures !Done(THREE, AT4) && Step(THREE, AT4).info.Mlfq? && |Step(THREE, AT4).info.queues| == LEVELS
    ensures Step(THREE, AT4).info.queues[1] == [Task(1, 1), Task(0, 1)]
  {
    hide Arrive, Complete, Sane;
    StepArrives(THREE, AT4);
    PreemptedGoesLast(THREE, AT4);
    assert [Task(1, 1)] + [Task(0, 1)] == [Task(1, 1), Task(0, 1)];
  }

  lemma FifthState()
    requires Valid(THREE)
    ensures var w := After(THREE, Started(THREE, MLFQ), 5);
      w.info.Mlfq? && |w.info.queues| == LEVELS && w.info.queues[1] == [Task(1, 1), Task(0, 1)]
  {
    hide *;
    var w := Started(THREE, MLFQ);
    FourStates();
    InvIsSane(THREE, After(THREE, w, 4));
    FifthEvent();
    AfterOneMore(THREE, w, 4);
  }

  lemma InvIsSane(tr: seq<Job>, w: World)
    requires Inv(tr, w)
    ensures Good(tr, w) && Sane(tr, w)
  {
  }

  lemma StepArrives(tr: seq<Job>, w: World)
    requires Good(tr, w) && !Done(tr, w) && !CompletionNext(tr, w)
    ensures Step(tr, w) == Arrive(tr, w)
  {
  }

  /** Jobs of sizes 3 and 3 at time 0 and of size 1 at time 2: the third arrival, the fifth event, puts the
      first job behind the second, which entered level 1 after it. */
  lemma ThirdArrivalOvertakes()
    ensures Valid(THREE) && OvertakenAt(THREE, 4) && OrderedAt(THREE, 4) && !OrderedAt(THREE, 5)
    ensures var w := After(THREE, Started(THREE, MLFQ), 5);
      w.info.Mlfq? && |w.info.queues| == LEVELS && w.info.queues[1] == [Task(1, 1), Task(0, 1)]
  {
    FirstOvertaking();
    FifthState();
    hide *;
    OrderedRunIff(THREE, 4);
    AtTheEnd(THREE, 4);
    NextOrderedIff(THREE, 4);
  }

  lemma AtTheEnd(tr: seq<Job>, n: nat)
    requires Valid(tr) && OrderedUpTo(tr, n)
    ensures OrderedAt(tr, n)
  {
    hide Valid, OrderedAt;
  }
}

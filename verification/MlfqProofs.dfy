/** Multi-level feedback queues: what their events do, and that preemption never cuts a slice. */
module MlfqProofs {
  import opened Basics
  import opened Scheduling
  import opened SchedulingProofs

  // ---------- Jobs on the levels ----------

  lemma {:induction false} JobsAppend(q: seq<Task>, t: Task)
    ensures Jobs(q + [t]) == Jobs(q) + multiset{t.job}
  {
    if q != [] {
      assert (q + [t])[1..] == q[1..] + [t];
      JobsAppend(q[1..], t);
    }
  }

  lemma Unfold(qs: seq<seq<Task>>)
    requires qs != []
    ensures AllJobs(qs) == Jobs(qs[0]) + AllJobs(qs[1..])
  {
  }

  lemma {:induction false} AllJobsUpdate(qs: seq<seq<Task>>, l: nat, q: seq<Task>)
    requires l < |qs|
    ensures AllJobs(qs[l := q]) + Jobs(qs[l]) == AllJobs(qs) + Jobs(q)
  {
    hide AllJobs, Jobs;
    var qs' := qs[l := q];
    Unfold(qs);
    Unfold(qs');
    if l == 0 {
      assert qs'[1..] == qs[1..];
      assert (Jobs(q) + AllJobs(qs[1..])) + Jobs(qs[0]) == (Jobs(qs[0]) + AllJobs(qs[1..])) + Jobs(q);
    } else {
      assert qs'[1..] == qs[1..][l - 1 := q] && qs'[0] == qs[0] && qs[1..][l - 1] == qs[l];
      AllJobsUpdate(qs[1..], l - 1, q);
      SwapTerms(AllJobs(qs'[1..]), AllJobs(qs[1..]), Jobs(q), Jobs(qs[l]), Jobs(qs[0]));
    }
  }

  lemma SwapTerms(a': multiset<nat>, a: multiset<nat>, n: multiset<nat>, o: multiset<nat>, h: multiset<nat>)
    requires a' + o == a + n
    ensures (h + a') + o == (h + a) + n
  {
    assert (h + a') + o == h + (a' + o);
  }

  predicate AllEmpty(qs: seq<seq<Task>>) { forall l {:trigger qs[l]} :: 0 <= l < |qs| ==> qs[l] == [] }

  lemma {:induction false} EmptyHasNoJobs(qs: seq<seq<Task>>)
    requires AllEmpty(qs)
    ensures AllJobs(qs) == multiset{}
  {
    if qs != [] {
      assert forall l :: 0 <= l < |qs| - 1 ==> qs[1..][l] == qs[l + 1];
      EmptyHasNoJobs(qs[1..]);
      assert qs[0] == [];
    }
  }

  lemma NoJobs(qs: seq<seq<Task>>)
    ensures AllJobs(qs) == multiset{} <==> AllEmpty(qs)
  {
    if AllEmpty(qs) {
      EmptyHasNoJobs(qs);
    } else {
      var l :| 0 <= l < |qs| && qs[l] != [];
      TaskIsCounted(qs, l, 0);
    }
  }

  lemma Cancel(a: multiset<nat>, b: multiset<nat>, c: multiset<nat>)
    requires a + c == b + c
    ensures a == b
  {
    forall x ensures a[x] == b[x] { assert (a + c)[x] == (b + c)[x]; }
  }

  lemma EnqueueAdds(qs: seq<seq<Task>>, t: Task)
    requires t.level < |qs|
    ensures AllJobs(Enqueue(qs, t)) == AllJobs(qs) + multiset{t.job}
  {
    var q := qs[t.level];
    AllJobsUpdate(qs, t.level, q + [t]);
    JobsAppend(q, t);
    Cancel(AllJobs(Enqueue(qs, t)), AllJobs(qs) + multiset{t.job}, Jobs(q));
  }

  // ---------- schedule_next ----------

  ghost predicate TasksRight(tr: seq<Job>, left: seq<nat>, qs: seq<seq<Task>>) {
    forall l, i {:trigger qs[l][i]} :: 0 <= l < |qs| && 0 <= i < |qs[l]| ==> RightLevel(tr, left, qs[l][i])
  }

  /** What schedule_next promises: the best-ranked waiting task runs from now on, if there is one. */
  ghost predicate Dispatched(tr: seq<Job>, w: World, w': World)
    requires w.info.Mlfq?
  {
    && w'.info.Mlfq? && NamedInfo(|tr|, w'.info) && TasksRight(tr, w.left, w'.info.queues)
    && w' == w.(due := w'.due, info := w'.info)
    && InSystem(w'.info) == AllJobs(w.info.queues)
    && (w'.info.running.None? <==> AllJobs(w.info.queues) == multiset{})
    && (w'.info.running.None? ==> w'.due.None?)
    && (w'.info.running.Some? ==>
          var t := w'.info.running.value;
          && RightLevel(tr, w.left, t) && w'.info.lastTime == w.now
          && w'.due == Some(w.now + Min(w.left[t.job], 1))
          && forall l {:trigger w'.info.queues[l]} :: 0 <= l < |w'.info.queues| && w'.info.queues[l] != [] ==> t.level <= l)
  }

  lemma TakeHead(qs: seq<seq<Task>>, l: nat)
    requires l < |qs| && qs[l] != []
    ensures AllJobs(qs[l := qs[l][1..]]) + multiset{qs[l][0].job} == AllJobs(qs)
  {
    var q := qs[l];
    AllJobsUpdate(qs, l, q[1..]);
    assert Jobs(q) == multiset{q[0].job} + Jobs(q[1..]);
    Cancel(AllJobs(qs[l := q[1..]]) + multiset{q[0].job}, AllJobs(qs), Jobs(q[1..]));
  }

  lemma HeadlessRight(tr: seq<Job>, left: seq<nat>, qs: seq<seq<Task>>, l: nat)
    requires NamedTasks(|tr|, qs) && TasksRight(tr, left, qs) && l < |qs| && qs[l] != []
    ensures NamedTasks(|tr|, qs[l := qs[l][1..]]) && TasksRight(tr, left, qs[l := qs[l][1..]])
  {
    var qs': seq<seq<Task>> := qs[l := qs[l][1..]];
    forall k, i | 0 <= k < |qs'| && 0 <= i < |qs'[k]|
      ensures qs'[k][i].job < |tr| && qs'[k][i].level == k && RightLevel(tr, left, qs'[k][i])
    {
      assert qs'[k][i] == if k == l then qs[l][i + 1] else qs[k][i];
    }
  }

  lemma DispatchDispatches(tr: seq<Job>, w: World)
    requires |w.left| == |tr| && w.info.Mlfq? && w.due.None? && w.info.running.None?
    requires NamedInfo(|tr|, w.info) && TasksRight(tr, w.left, w.info.queues)
    ensures Dispatched(tr, w, Dispatch(w))
  {
    var qs := w.info.queues;
    var l := Top(qs, 0);
    NoJobs(qs);
    if l < |qs| { DispatchRuns(tr, w, l); }
  }

  /** The state schedule_next leaves when level l is the first that is not empty. */
  function Chosen(w: World, l: nat): World
    requires w.info.Mlfq? && l < |w.info.queues| && w.info.queues[l] != [] && w.info.queues[l][0].job < |w.left|
  {
    var qs, t := w.info.queues, w.info.queues[l][0];
    w.(info := Mlfq(qs[l := qs[l][1..]], Some(t), w.now), due := Some(w.now + Min(w.left[t.job], 1)))
  }

  lemma DispatchChooses(w: World, l: nat)
    requires w.info.Mlfq? && NamedInfo(|w.left|, w.info) && w.due.None?
    requires l == Top(w.info.queues, 0) < |w.info.queues|
    ensures Dispatch(w) == Chosen(w, l)
  {
  }

  /** Removing the head of the first level that is not empty leaves nothing above it. */
  lemma NothingAbove(qs: seq<seq<Task>>, l: nat)
    requires l < |qs| && qs[l] != [] && forall k {:trigger qs[k]} :: 0 <= k < l ==> qs[k] == []
    ensures var qs' := qs[l := qs[l][1..]]; forall k {:trigger qs'[k]} :: 0 <= k < |qs'| && qs'[k] != [] ==> l <= k
  {
  }

  lemma ChosenSystem(w: World, l: nat)
    requires w.info.Mlfq? && l < |w.info.queues| && w.info.queues[l] != [] && w.info.queues[l][0].job < |w.left|
    ensures InSystem(Chosen(w, l).info) == AllJobs(w.info.queues) != multiset{}
  {
    TakeHead(w.info.queues, l);
    hide AllJobs;
    assert w.info.queues[l][0].job in AllJobs(w.info.queues);
  }

  lemma DispatchRuns(tr: seq<Job>, w: World, l: nat)
    requires |w.left| == |tr| && w.info.Mlfq? && w.due.None? && w.info.running.None?
    requires NamedInfo(|tr|, w.info) && TasksRight(tr, w.left, w.info.queues)
    requires l == Top(w.info.queues, 0) < |w.info.queues|
    ensures Dispatched(tr, w, Dispatch(w))
  {
    var qs := w.info.queues;
    assert RightLevel(tr, w.left, qs[l][0]) && qs[l][0].level == l && qs[l][0].job < |tr|;
    ChosenSystem(w, l);
    HeadlessRight(tr, w.left, qs, l);
    DispatchChooses(w, l);
    NothingAbove(qs, l);
    hide AllJobs, TasksRight, NamedTasks, RightLevel, Dispatch, Top, InSystem;
  }

  lemma EnqueueRight(tr: seq<Job>, left: seq<nat>, qs: seq<seq<Task>>, t: Task)
    requires NamedTasks(|tr|, qs) && TasksRight(tr, left, qs) && RightLevel(tr, left, t) && t.level < |qs|
    ensures NamedTasks(|tr|, Enqueue(qs, t)) && TasksRight(tr, left, Enqueue(qs, t))
  {
    var qs': seq<seq<Task>> := Enqueue(qs, t);
    forall k, i | 0 <= k < |qs'| && 0 <= i < |qs'[k]|
      ensures qs'[k][i].job < |tr| && qs'[k][i].level == k && RightLevel(tr, left, qs'[k][i])
    {
      assert i < |qs[k]| ==> qs'[k][i] == qs[k][i];
    }
  }

  // ---------- Arrivals ----------

  /** A completion is never more than one unit away, and completions sort before arrivals: whoever arrives
      while a task runs arrives at the very moment its slice began. */
  lemma PreemptionSeesNoProgress(tr: seq<Job>, w: World)
    requires Good(tr, w) && Sane(tr, w) && ArrivalNext(tr, w) && w.info.Mlfq? && w.info.running.Some?
    ensures tr[w.arrived].arrival == w.info.lastTime == w.now
    ensures RunSoFar(w.(now := tr[w.arrived].arrival)) == 0
  {
  }

  lemma DispatchedIsSane(tr: seq<Job>, w: World, w': World)
    requires |w.left| == |tr| && w.arrived <= |tr| && w.info.Mlfq? && Dispatched(tr, w, w')
    requires forall j {:trigger w.left[j]} :: 0 <= j < |tr| ==> w.left[j] <= tr[j].size
    requires forall j {:trigger w.left[j]} :: w.arrived <= j < |tr| ==> w.left[j] == tr[j].size
    ensures Good(tr, w') && Sane(tr, w')
    ensures w'.due.Some? ==> Began(w') == w.now
    ensures w'.due.Some? <==> AllJobs(w.info.queues) != multiset{}
  {
    if w'.info.running.Some? { assert w'.info.running.value.job in InSystem(w'.info); }
    assert w'.info.running.None? ==> InSystem(w'.info) == multiset{};
  }

  /** The state schedulerMLFQScheduleJob works on once the new task is on level 0. */
  function Joined(tr: seq<Job>, w: World): World
    requires Good(tr, w) && w.arrived < |tr| && w.info.Mlfq?
  {
    w.(now := tr[w.arrived].arrival,
       info := w.info.(queues := Enqueue(w.info.queues, Task(w.arrived, 0))),
       arrived := w.arrived + 1)
  }

  lemma JoinedIsRight(tr: seq<Job>, w: World)
    requires Good(tr, w) && Sane(tr, w) && w.arrived < |tr| && w.info.Mlfq?
    ensures var w1 := Joined(tr, w);
      && NamedTasks(|tr|, w1.info.queues) && TasksRight(tr, w.left, w1.info.queues)
      && AllJobs(w1.info.queues) == AllJobs(w.info.queues) + multiset{w.arrived}
  {
    var t := Task(w.arrived, 0);
    assert w.left[w.arrived] == tr[w.arrived].size;
    assert RightLevel(tr, w.left, t);
    EnqueueAdds(w.info.queues, t);
    EnqueueRight(tr, w.left, w.info.queues, t);
  }

  lemma ArrivesAtRest(tr: seq<Job>, w: World)
    requires Good(tr, w) && Sane(tr, w) && ArrivalNext(tr, w) && w.info.Mlfq? && w.info.running.None?
    ensures var w' := Arrive(tr, w); Good(tr, w') && Sane(tr, w') && Arrival(tr, w, w')
  {
    var w1 := Joined(tr, w);
    JoinedIsRight(tr, w);
    DispatchDispatches(tr, w1);
    DispatchedIsSane(tr, w1, Dispatch(w1));
    assert w.arrived in AllJobs(w1.info.queues);
    assert Arrive(tr, w) == Dispatch(w1);
  }

  lemma ArrivesAndPreempts(tr: seq<Job>, w: World)
    requires Good(tr, w) && Sane(tr, w) && ArrivalNext(tr, w) && w.info.Mlfq?
    requires w.info.running.Some? && 0 < w.info.running.value.level
    ensures var w' := Arrive(tr, w); Good(tr, w') && Sane(tr, w') && Arrival(tr, w, w')
  {
    var w1, t := Joined(tr, w), w.info.running.value;
    PreemptionSeesNoProgress(tr, w);
    JoinedIsRight(tr, w);
    EnqueueAdds(w1.info.queues, t);
    EnqueueRight(tr, w.left, w1.info.queues, t);
    var w2 := w1.(due := None, info := Mlfq(Enqueue(w1.info.queues, t), None, w.info.lastTime));
    DispatchDispatches(tr, w2);
    DispatchedIsSane(tr, w2, Dispatch(w2));
    assert w.arrived in AllJobs(w2.info.queues);
    PreemptDispatches(tr, w);
    hide Dispatch, AllJobs, Enqueue, TasksRight, Arrive, Joined, Levelled;
  }

  lemma PreemptDispatches(tr: seq<Job>, w: World)
    requires Good(tr, w) && Sane(tr, w) && ArrivalNext(tr, w) && w.info.Mlfq?
    requires w.info.running.Some? && 0 < w.info.running.value.level
    ensures var w1, t := Joined(tr, w), w.info.running.value;
      var w2 := w1.(due := None, info := Mlfq(Enqueue(w1.info.queues, t), None, w.info.lastTime));
      NamedInfo(|w2.left|, w2.info) && Arrive(tr, w) == Dispatch(w2)
  {
    var w1, t := Joined(tr, w), w.info.running.value;
    PreemptionSeesNoProgress(tr, w);
    JoinedIsRight(tr, w);
    EnqueueRight(tr, w.left, w1.info.queues, t);
    hide TasksRight, RightLevel, AllJobs, Levelled;
    assert w1.left[t.job := w1.left[t.job] - 0] == w1.left;
  }

  /** A preempted task goes behind everyone on its level, those who came to the level after it included. */
  lemma PreemptedGoesLast(tr: seq<Job>, w: World)
    requires Good(tr, w) && Sane(tr, w) && ArrivalNext(tr, w) && w.info.Mlfq?
    requires w.info.running.Some? && 0 < w.info.running.value.level
    ensures var t, w' := w.info.running.value, Arrive(tr, w);
      && w'.info.Mlfq? && |w'.info.queues| == LEVELS
      && w'.info.queues[t.level] == w.info.queues[t.level] + [t]
      && w'.info.running.Some? && w'.info.running.value.level == 0
  {
    var w1, t := Joined(tr, w), w.info.running.value;
    PreemptDispatches(tr, w);
    var w2 := w1.(due := None, info := Mlfq(Enqueue(w1.info.queues, t), None, w.info.lastTime));
    var qs: seq<seq<Task>> := w2.info.queues;
    assert qs[0] == w.info.queues[0] + [Task(w.arrived, 0)];
    assert Top(qs, 0) == 0;
    hide Arrive, Sane, Levelled;
    DispatchChooses(w2, 0);
    assert qs[0][0].level == 0;
  }

  lemma ArrivesBehind(tr: seq<Job>, w: World)
    requires Good(tr, w) && Sane(tr, w) && ArrivalNext(tr, w) && w.info.Mlfq?
    requires w.info.running.Some? && w.info.running.value.level == 0
    ensures var w' := Arrive(tr, w); Good(tr, w') && Sane(tr, w') && Arrival(tr, w, w')
  {
    BehindIsSane(tr, w);
    JoinedSystem(tr, w);
    assert Arrive(tr, w) == Joined(tr, w);
    hide Sane, Levelled, InSystem, Enqueue, Arrive, NamedInfo;
  }

  lemma JoinedSystem(tr: seq<Job>, w: World)
    requires Good(tr, w) && Sane(tr, w) && w.arrived < |tr| && w.info.Mlfq?
    ensures InSystem(Joined(tr, w).info) == InSystem(w.info) + multiset{w.arrived}
  {
    JoinedIsRight(tr, w);
    hide AllJobs;
  }

  lemma BehindIsSane(tr: seq<Job>, w: World)
    requires Good(tr, w) && Sane(tr, w) && ArrivalNext(tr, w) && w.info.Mlfq?
    requires w.info.running.Some? && w.info.running.value.level == 0
    ensures var w' := Joined(tr, w); Good(tr, w') && Sane(tr, w')
  {
    JoinedIsRight(tr, w);
    JoinedSystem(tr, w);
    BehindIsLevelled(tr, w);
    hide AllJobs, Enqueue, RightLevel, InSystem, Levelled, TasksRight;
  }

  lemma BehindIsLevelled(tr: seq<Job>, w: World)
    requires Good(tr, w) && Sane(tr, w) && ArrivalNext(tr, w) && w.info.Mlfq?
    requires w.info.running.Some? && w.info.running.value.level == 0
    ensures var w' := Joined(tr, w); Good(tr, w') && Levelled(tr, w')
  {
    JoinedIsRight(tr, w);
    hide AllJobs, Enqueue, RightLevel, InSystem;
  }

  lemma MlfqArrives(tr: seq<Job>, w: World)
    requires Good(tr, w) && Sane(tr, w) && ArrivalNext(tr, w) && w.info.Mlfq?
    ensures var w' := Arrive(tr, w); Good(tr, w') && Sane(tr, w') && Arrival(tr, w, w')
  {
    if w.info.running.None? {
      ArrivesAtRest(tr, w);
    } else if 0 < w.info.running.value.level {
      ArrivesAndPreempts(tr, w);
    } else {
      ArrivesBehind(tr, w);
    }
  }

  // ---------- Completions ----------

  /** The state schedulerMLFQCompleteJob dispatches from. */
  function Served(tr: seq<Job>, w: World): World
    requires Good(tr, w) && w.due.Some? && w.info.Mlfq? && w.info.running.Some?
  {
    var t := w.info.running.value;
    var rem := w.left[t.job];
    w.(now := w.due.value, due := None, left := w.left[t.job := if rem > 1 then rem - 1 else 0],
       info := Mlfq(if rem > 1 then Enqueue(w.info.queues, t.(level := Min(t.level + 1, LEVELS - 1))) else w.info.queues,
                    None, w.info.lastTime))
  }

  /** Serving one task disturbs no other: the job in service waits on no level. */
  lemma {:induction false} OthersStayRight(tr: seq<Job>, w: World)
    requires Good(tr, w) && Sane(tr, w) && w.info.Mlfq? && w.info.running.Some?
    requires InSystem(w.info)[w.info.running.value.job] == 1
    ensures forall l, i {:trigger w.info.queues[l][i]} ::
      0 <= l < |w.info.queues| && 0 <= i < |w.info.queues[l]| ==> w.info.queues[l][i].job != w.info.running.value.job
  {
    var qs: seq<seq<Task>> := w.info.queues;
    forall l, i | 0 <= l < |qs| && 0 <= i < |qs[l]| ensures qs[l][i].job != w.info.running.value.job {
      TaskIsCounted(qs, l, i);
    }
  }

  lemma {:induction false} TaskIsCounted(qs: seq<seq<Task>>, l: nat, i: nat)
    requires l < |qs| && i < |qs[l]|
    ensures qs[l][i].job in AllJobs(qs)
  {
    if l > 0 { TaskIsCounted(qs[1..], l - 1, i); } else { JobIsCounted(qs[0], i); }
  }

  lemma {:induction false} JobIsCounted(q: seq<Task>, i: nat)
    requires i < |q|
    ensures q[i].job in Jobs(q)
  {
    if i > 0 { JobIsCounted(q[1..], i - 1); }
  }

  lemma ServedIsRight(tr: seq<Job>, w: World)
    requires Good(tr, w) && Sane(tr, w) && w.due.Some? && w.info.Mlfq?
    requires w.info.running.Some? && InSystem(w.info)[w.info.running.value.job] == 1
    ensures var w1 := Served(tr, w);
      && NamedTasks(|tr|, w1.info.queues) && TasksRight(tr, w1.left, w1.info.queues)
      && AllJobs(w1.info.queues) == AllJobs(w.info.queues) +
           if w.left[w.info.running.value.job] > 1 then multiset{w.info.running.value.job} else multiset{}
  {
    var w1, t := Served(tr, w), w.info.running.value;
    OthersStayRight(tr, w);
    assert TasksRight(tr, w1.left, w.info.queues);
    if w.left[t.job] > 1 {
      var t' := t.(level := Min(t.level + 1, LEVELS - 1));
      assert RightLevel(tr, w1.left, t');
      EnqueueAdds(w.info.queues, t');
      EnqueueRight(tr, w1.left, w.info.queues, t');
    }
  }

  lemma MlfqCompletesSanely(tr: seq<Job>, w: World)
    requires Good(tr, w) && Sane(tr, w) && CompletionDue(tr, w) && w.info.Mlfq?
    requires w.info.running.Some? && InSystem(w.info)[w.info.running.value.job] == 1
    requires w.info.running.value.job < w.arrived
    ensures var w', w1 := Complete(tr, w), Written(tr, w);
      && Good(tr, w') && Sane(tr, w') && Dispatched(tr, w1, w')
      && (w'.due.Some? ==> Began(w') == w1.now)
  {
    var w1 := Written(tr, w);
    ServedIsRight(tr, w);
    ServedFits(tr, w);
    CompleteDispatches(tr, w);
    hide Levelled, Sane, AllJobs, Dispatch, Complete, NamedTasks;
    DispatchDispatches(tr, w1);
    hide TasksRight;
    DispatchedIsSane(tr, w1, Dispatch(w1));
  }

  lemma ServedFits(tr: seq<Job>, w: World)
    requires Good(tr, w) && Sane(tr, w) && w.due.Some? && w.info.Mlfq? && w.info.running.Some?
    requires w.info.running.value.job < w.arrived
    ensures var w1 := Written(tr, w);
      && |w1.left| == |tr|
      && (forall j {:trigger w1.left[j]} :: 0 <= j < |tr| ==> w1.left[j] <= tr[j].size)
      && (forall j {:trigger w1.left[j]} :: w1.arrived <= j < |tr| ==> w1.left[j] == tr[j].size)
  {
  }

  lemma ServedSystem(tr: seq<Job>, w: World)
    requires Good(tr, w) && Sane(tr, w) && w.due.Some? && w.info.Mlfq?
    requires w.info.running.Some? && InSystem(w.info)[w.info.running.value.job] == 1
    ensures var j := w.info.running.value.job;
      AllJobs(Served(tr, w).info.queues) == if w.left[j] > 1 then InSystem(w.info) else InSystem(w.info) - multiset{j}
  {
    ServedIsRight(tr, w);
    hide AllJobs;
  }

  lemma ServedCompletes(tr: seq<Job>, w: World, w': World)
    requires Good(tr, w) && Sane(tr, w) && CompletionDue(tr, w) && w.info.Mlfq? && Good(tr, w') && Sane(tr, w')
    requires w.info.running.Some? && w'.info.Mlfq?
    requires var w1 := Written(tr, w);
      w'.left == w1.left && w'.output == w1.output && w'.now == w1.now && w'.arrived == w1.arrived
    requires var j := w.info.running.value.job;
      InSystem(w'.info) == if w.left[j] > 1 then InSystem(w.info) else InSystem(w.info) - multiset{j}
    requires w'.due.Some? ==> Began(w') == w'.now
    ensures Completion(tr, w, w')
  {
    var j := w.info.running.value.job;
    assert Slice(w) == Min(w.left[j], 1) && Running(w.info) == Some(j);
    hide Levelled, Sane, InSystem, AllJobs, NamedInfo;
  }

  lemma MlfqCompletes(tr: seq<Job>, w: World)
    requires Good(tr, w) && Sane(tr, w) && CompletionDue(tr, w) && w.info.Mlfq?
    requires w.info.running.Some? && InSystem(w.info)[w.info.running.value.job] == 1
    requires w.info.running.value.job < w.arrived
    ensures var w' := Complete(tr, w); Good(tr, w') && Sane(tr, w') && Completion(tr, w, w')
  {
    var w1, w' := Written(tr, w), Complete(tr, w);
    ServedSystem(tr, w);
    MlfqCompletesSanely(tr, w);
    assert w'.info.Mlfq?;
    hide Levelled, Sane, InSystem, AllJobs, NamedInfo, TasksRight, Completion;
    assert w'.left == w1.left && w'.output == w1.output && w'.now == w1.now && w'.arrived == w1.arrived;
    ServedCompletes(tr, w, w');
  }

  /** The same, with the line for a finished job. */
  function Written(tr: seq<Job>, w: World): World
    requires Good(tr, w) && w.due.Some? && w.info.Mlfq? && w.info.running.Some?
  {
    var j := w.info.running.value.job;
    Served(tr, w).(output := if w.left[j] > 1 then w.output else w.output + [Output(j, w.due.value)])
  }

  lemma CompleteDispatches(tr: seq<Job>, w: World)
    requires Good(tr, w) && w.due.Some? && w.info.Mlfq? && w.info.running.Some?
    ensures NamedInfo(|tr|, Written(tr, w).info) && Written(tr, w).info.Mlfq? && Complete(tr, w) == Dispatch(Written(tr, w))
  {
  }
}

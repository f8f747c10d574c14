/** A run of the simulator over a trace: the scheduler's callbacks, the four policies and the loop over the
    events, against the step functions of module Scheduling. */
module Trace {
  import opened Basics
  import opened Scheduling
  import opened SchedulingProofs
  import opened SimulatedRuns
  import opened PolicyRuns
  import opened EventQueue
  import Simulator

  class Trace {
    const jobs: seq<Job>
    const sim: Simulator.Simulator
    var completionEvent: Option<nat>     // a reference into the queue
    var info: Info
    var left: seq<nat>                   // each job's remainingTime
    var read: nat                        // lines of the trace file consumed
    var currentJob: nat
    var output: seq<Output>

    // The meaning of the queue: the time of the pending completion, the pending arrival's reference, the
    // event whose callback runs, and the number of jobs handed to the scheduler.
    ghost var due: Option<nat>
    ghost var arrivalEvent: Option<nat>
    ghost var current: set<Event>
    ghost var arrived: nat

    ghost function View(): World
      reads this, sim
    {
      World(sim.simTime, due, left, info, arrived, output)
    }

    /** The events the state stands for. */
    ghost function Pending(): set<Event>
      reads this
    {
      (if due.Some? && completionEvent.Some? then {Event(due.value, Completion, completionEvent.value)} else {}) +
      (if arrivalEvent.Some? && arrived < |jobs| then {Event(jobs[arrived].arrival, Arrival, arrivalEvent.value)} else {})
    }

    ghost predicate Valid()
      reads this, sim
    {
      && (due.Some? <==> completionEvent.Some?)
      && (arrivalEvent.Some? ==> arrived < |jobs| && currentJob == arrived && read == arrived + 1)
      && (forall e :: e in current ==> e !in Pending())
      && sim.Holding(Pending() + current)
    }

    /** traceRun and schedulerCreate, up to the first arrival. */
    constructor (tr: seq<Job>, p: Policy)
      ensures jobs == tr && fresh(sim) && View() == Initial(tr, p)
      ensures Valid() && arrivalEvent.None? && current == {} && read == 0
    {
      jobs, info, left, output, read, currentJob := tr, NewInfo(p), Sizes(tr), [], 0, 0;
      completionEvent, due, arrivalEvent, current, arrived := None, None, None, {}, 0;
      sim := new Simulator.Simulator();
    }

    // ---------- scheduler.c ----------

    /** schedulerScheduleNextCompletion. */
    method ScheduleNextCompletion(timestamp: nat) returns (ok: bool)
      requires Valid() && timestamp >= sim.simTime
      modifies this`completionEvent, this`due, sim
      ensures Valid() && sim.simTime == old(sim.simTime)
      ensures ok == old(due).None? && due == (if ok then Some(timestamp) else old(due))
    {
      if completionEvent.Some? { return false; }
      var ref := sim.Schedule(timestamp, Completion, Pending() + current);
      completionEvent := Some(ref);
      due := Some(timestamp);
      assert Pending() + current == old(Pending() + current) + {Event(timestamp, Completion, ref)};
      ok := true;
    }

    /** schedulerCancelNextCompletion. */
    method CancelNextCompletion() returns (ok: bool)
      requires Valid()
      modifies this`completionEvent, this`due, sim`queue
      ensures Valid() && ok == old(due).Some? && due == None
    {
      if completionEvent.None? { return false; }
      ghost var e := Event(due.value, Completion, completionEvent.value);
      sim.RemoveEvent(completionEvent.value, Pending() + current, e);
      completionEvent := None;
      due := None;
      assert Pending() + current == old(Pending() + current) - {e};
      ok := true;
    }

    // ---------- schedulerFCFS.c ----------

    method FcfsScheduleJob(job: nat, currentTime: nat)
      requires Valid() && Good(jobs, View()) && info.Fcfs? && job < |jobs| && currentTime == sim.simTime
      modifies this`info, this`completionEvent, this`due, sim
      ensures Valid() && View() == ScheduleJob(jobs, old(View()), job)
    {
      info := Fcfs([job] + info.jobQueue);
      if |info.jobQueue| == 1 {
        var _ := ScheduleNextCompletion(currentTime + jobs[job].size);
      }
    }

    method FcfsCompleteJob(currentTime: nat) returns (finished: Option<nat>)
      requires Valid() && Good(jobs, View()) && info.Fcfs? && currentTime == sim.simTime
      modifies this`info, this`completionEvent, this`due, sim
      ensures Valid() && (View(), finished) == CompleteJob(jobs, old(View()))
    {
      var q := info.jobQueue;
      if |q| == 0 { return None; }
      finished := Some(q[|q| - 1]);
      q := q[..|q| - 1];
      info := Fcfs(q);
      if |q| > 0 {
        var _ := ScheduleNextCompletion(currentTime + left[q[|q| - 1]]);
      }
    }

    // ---------- schedulerLCFS.c ----------

    method LcfsScheduleJob(job: nat, currentTime: nat)
      requires Valid() && Good(jobs, View()) && info.Lcfs? && job < |jobs| && currentTime == sim.simTime
      modifies this`info, this`completionEvent, this`due, sim
      ensures Valid() && View() == ScheduleJob(jobs, old(View()), job)
    {
      info := Lcfs([job] + info.jobQueue, info.currentJob);
      if |info.jobQueue| == 1 {
        info := Lcfs(info.jobQueue, Some(job));
        var _ := ScheduleNextCompletion(currentTime + jobs[job].size);
      }
    }

    method LcfsCompleteJob(currentTime: nat) returns (finished: Option<nat>)
      requires Valid() && Good(jobs, View()) && info.Lcfs? && currentTime == sim.simTime
      modifies this`info, this`completionEvent, this`due, sim
      ensures Valid() && (View(), finished) == CompleteJob(jobs, old(View()))
    {
      if info.currentJob.None? { return None; }
      finished := info.currentJob;
      RemoveFirstNamed(jobs, info.jobQueue, finished.value);
      info := Lcfs(RemoveFirst(info.jobQueue, finished.value), finished);
      if |info.jobQueue| > 0 {
        var next := info.jobQueue[0];
        info := Lcfs(info.jobQueue, Some(next));
        var _ := ScheduleNextCompletion(currentTime + jobs[next].size);
      } else {
        info := Lcfs(info.jobQueue, None);
      }
    }

    // ---------- schedulerSJF.c ----------

    method SjfScheduleJob(job: nat, currentTime: nat)
      requires Valid() && Good(jobs, View()) && info.Sjf? && job < |jobs| && currentTime == sim.simTime
      modifies this`info, this`completionEvent, this`due, sim
      ensures Valid() && View() == ScheduleJob(jobs, old(View()), job)
    {
      info := Sjf([job] + info.jobQueue, info.currentJob);
      if info.currentJob.None? {
        info := Sjf(info.jobQueue, Some(job));
        var _ := ScheduleNextCompletion(currentTime + jobs[job].size);
      }
    }

    /** The scan of schedulerSJFCompleteJob. */
    method ShortestJob(q: seq<nat>) returns (nextJob: Option<nat>)
      requires Named(jobs, q)
      ensures nextJob == Best(jobs, q)
    {
      var bestTime, bestId := UINT64_MAX, UINT64_MAX;
      nextJob := None;
      var i := 0;
      while i < |q|
        invariant i <= |q| && nextJob == Best(jobs, q[..i]) && (nextJob.Some? ==> nextJob.value < |jobs|)
        invariant bestTime == BestTime(jobs, nextJob) && bestId == BestId(jobs, nextJob)
      {
        var candidate := q[i];
        var t, id := jobs[candidate].size, jobs[candidate].id;
        assert q[..i + 1][..i] == q[..i];
        if t < bestTime || (t == bestTime && id < bestId) {
          bestTime, bestId, nextJob := t, id, Some(candidate);
        }
        i := i + 1;
      }
      assert q[..|q|] == q;
    }

    method SjfCompleteJob(currentTime: nat) returns (finished: Option<nat>)
      requires Valid() && Good(jobs, View()) && info.Sjf? && currentTime == sim.simTime
      modifies this`info, this`completionEvent, this`due, sim
      ensures Valid() && (View(), finished) == CompleteJob(jobs, old(View()))
    {
      finished := info.currentJob;
      if finished.Some? {
        RemoveFirstNamed(jobs, info.jobQueue, finished.value);
        info := Sjf(RemoveFirst(info.jobQueue, finished.value), finished);
      }
      hide Valid, Best;
      StartShortest(currentTime);
    }

    /** The job the scan finds starts, if it finds one. */
    method StartShortest(currentTime: nat)
      requires Valid() && Good(jobs, View()) && info.Sjf? && currentTime == sim.simTime
      modifies this`info, this`completionEvent, this`due, sim
      ensures Valid() && View() == SjfStart(jobs, old(View()), old(info.jobQueue), None).0
    {
      hide Best;
      var nextJob := ShortestJob(info.jobQueue);
      if nextJob.Some? {
        info := Sjf(info.jobQueue, nextJob);
        var _ := ScheduleNextCompletion(currentTime + jobs[nextJob.value].size);
      } else {
        info := Sjf(info.jobQueue, None);
      }
    }

    // ---------- schedulerMLFQ.c ----------

    /** schedule_next. */
    method ScheduleNext(now: nat)
      requires Valid() && Good(jobs, View()) && info.Mlfq? && now == sim.simTime
      modifies this`info, this`completionEvent, this`due, sim
      ensures Valid() && View() == Dispatch(old(View()))
    {
      var qs := info.queues;
      var lvl := 0;
      while lvl < LEVELS && |qs[lvl]| == 0
        invariant lvl <= LEVELS && forall k :: 0 <= k < lvl ==> qs[k] == []
      {
        lvl := lvl + 1;
      }
      TopIs(qs, 0, lvl);
      if lvl == LEVELS {
        info := info.(running := None);
      } else {
        var next := qs[lvl][0];
        info := Mlfq(qs[lvl := qs[lvl][1..]], Some(next), now);
        var rem := left[next.job];
        var run := if rem < 1 then rem else 1;
        var _ := ScheduleNextCompletion(now + run);
      }
    }

    /** The part of schedulerMLFQScheduleJob that cancels the running task's slice and puts it back in line. */
    method PreemptRunning(now: nat)
      requires Valid() && Good(jobs, View()) && info.Mlfq? && info.running.Some? && now == sim.simTime
      modifies this`info, this`completionEvent, this`due, this`left, sim
      ensures Valid() && View() == Preempt(old(View()))
    {
      var r := CutSlice(now);
      hide Holds;
      EnqueueNamed(|jobs|, info.queues, r);
      info := info.(queues := Enqueue(info.queues, r), running := None);
      hide Valid, Dispatch;
      ScheduleNext(now);
    }

    /** Cancels the pending completion and charges the running task for the time it had. */
    method CutSlice(now: nat) returns (r: Task)
      requires Valid() && Good(jobs, View()) && info.Mlfq? && info.running.Some? && now == sim.simTime
      modifies this`completionEvent, this`due, this`left, sim`queue
      ensures Valid() && due.None? && |left| == |jobs|
      ensures var t, run := info.running.value, Min(RunSoFar(old(View())), old(left)[info.running.value.job]);
        && left == old(left)[t.job := old(left)[t.job] - run]
        && r == if run >= 1 && t.level < LEVELS - 1 then t.(level := t.level + 1) else t
    {
      var _ := CancelNextCompletion();
      r := info.running.value;
      var run := (now - info.lastTime) % (UINT64_MAX + 1);
      if run > 0 {
        var rem := left[r.job];
        if run > rem { run := rem; }
        left := left[r.job := rem - run];
        if run >= 1 && r.level < LEVELS - 1 { r := r.(level := r.level + 1); }
      }
    }

    method MlfqScheduleJob(job: nat, now: nat)
      requires Valid() && Good(jobs, View()) && info.Mlfq? && job < |jobs| && now == sim.simTime
      modifies this`info, this`completionEvent, this`due, this`left, sim
      ensures Valid() && View() == ScheduleJob(jobs, old(View()), job)
    {
      EnqueueNamed(|jobs|, info.queues, Task(job, 0));
      info := info.(queues := Enqueue(info.queues, Task(job, 0)));
      if info.running.None? {
        ScheduleNext(now);
      } else if 0 < info.running.value.level {
        PreemptRunning(now);
      }
    }

    method MlfqCompleteJob(now: nat) returns (finished: Option<nat>)
      requires Valid() && Good(jobs, View()) && info.Mlfq? && now == sim.simTime
      modifies this`info, this`completionEvent, this`due, this`left, sim
      ensures Valid() && (View(), finished) == CompleteJob(jobs, old(View()))
    {
      finished := None;
      if info.running.Some? { finished := ServeRunning(); }
      hide Valid, Dispatch;
      ScheduleNext(now);
    }

    /** The running task leaves the processor: finished, or down one level with one unit less to go. */
    method ServeRunning() returns (finished: Option<nat>)
      requires Valid() && Good(jobs, View()) && info.Mlfq? && info.running.Some?
      modifies this`info, this`left
      ensures Valid() && |left| == |jobs| && NamedInfo(|jobs|, info)
      ensures var t, w := old(info.running).value, old(View());
        if w.left[t.job] > 1 then
          finished == None && left == w.left[t.job := w.left[t.job] - 1] &&
          info == Mlfq(Enqueue(w.info.queues, t.(level := Min(t.level + 1, LEVELS - 1))), None, w.info.lastTime)
        else
          finished == Some(t.job) && left == w.left[t.job := 0] && info == Mlfq(w.info.queues, None, w.info.lastTime)
    {
      var t := info.running.value;
      info := info.(running := None);
      var rem := left[t.job];
      if rem > 1 {
        left := left[t.job := rem - 1];
        if t.level < LEVELS - 1 { t := t.(level := t.level + 1); }
        EnqueueNamed(|jobs|, info.queues, t);
        info := info.(queues := Enqueue(info.queues, t));
        finished := None;
      } else {
        left := left[t.job := 0];
        finished := Some(t.job);
      }
    }

    // ---------- The callbacks and the loop ----------

    /** traceScheduleNextArrival: the next line of the file, if there is one. */
    method ScheduleNextArrival()
      requires Valid() && arrivalEvent.None? && read == arrived <= |jobs|
      requires read < |jobs| ==> sim.simTime <= jobs[read].arrival
      modifies this`read, this`currentJob, this`arrivalEvent, sim
      ensures Valid() && View() == old(View()) && (arrivalEvent.Some? <==> arrived < |jobs|)
    {
      hide Holds;
      if read == |jobs| { return; }
      currentJob := read;
      read := read + 1;
      var ref := sim.Schedule(jobs[currentJob].arrival, Arrival, Pending() + current);
      arrivalEvent := Some(ref);
      assert Pending() + current == old(Pending() + current) + {Event(jobs[currentJob].arrival, Arrival, ref)};
    }

    /** schedulerScheduleJob: the policy's scheduleJob. */
    method PolicySchedules(job: nat)
      requires Valid() && Good(jobs, View()) && job < |jobs|
      modifies this`info, this`completionEvent, this`due, this`left, sim
      ensures Valid() && View() == ScheduleJob(jobs, old(View()), job)
    {
      hide ScheduleJob, NamedInfo, Valid;
      var now := sim.simTime;
      match info
      case Fcfs(_) => FcfsScheduleJob(job, now);
      case Lcfs(_, _) => LcfsScheduleJob(job, now);
      case Sjf(_, _) => SjfScheduleJob(job, now);
      case Mlfq(_, _, _) => MlfqScheduleJob(job, now);
    }

    /** The policy's completeJob. */
    method PolicyCompletes() returns (job: Option<nat>)
      requires Valid() && Good(jobs, View())
      modifies this`info, this`completionEvent, this`due, this`left, sim
      ensures Valid() && (View(), job) == CompleteJob(jobs, old(View()))
    {
      hide CompleteJob, NamedInfo, Valid;
      var now := sim.simTime;
      match info
      case Fcfs(_) => job := FcfsCompleteJob(now);
      case Lcfs(_, _) => job := LcfsCompleteJob(now);
      case Sjf(_, _) => job := SjfCompleteJob(now);
      case Mlfq(_, _, _) => job := MlfqCompleteJob(now);
    }

    /** traceArrivalCallback: the policy gets the job, then the next line is read. */
    method ArrivalCallback()
      requires Valid() && Good(jobs, View()) && current == {} && arrivalEvent.Some?
      requires sim.simTime == jobs[arrived].arrival
      requires arrived + 1 < |jobs| ==> jobs[arrived].arrival <= jobs[arrived + 1].arrival
      modifies this, sim
      ensures Valid() && View() == Arrive(jobs, old(View())) && (arrivalEvent.Some? <==> arrived < |jobs|)
      ensures current == {Event(old(sim.simTime), Arrival, old(arrivalEvent).value)}
    {
      hide ScheduleJob, NamedInfo;
      current := {Event(sim.simTime, Arrival, arrivalEvent.value)};
      arrivalEvent := None;
      assert Pending() + current == old(Pending());
      PolicySchedules(currentJob);
      ScheduleKeepsClock(jobs, old(View()), currentJob);
      arrived := arrived + 1;
      ScheduleNextArrival();
    }

    /** schedulerCompleteJob, and traceCompletionCallback for a finished job. */
    method CompletionCallback()
      requires Valid() && Good(jobs, View()) && current == {} && due == Some(sim.simTime)
      requires arrivalEvent.Some? <==> arrived < |jobs|
      modifies this, sim
      ensures Valid() && View() == Complete(jobs, old(View())) && (arrivalEvent.Some? <==> arrived < |jobs|)
      ensures current == {Event(old(sim.simTime), Completion, old(completionEvent).value)}
    {
      hide CompleteJob, NamedInfo;
      current := {Event(sim.simTime, Completion, completionEvent.value)};
      completionEvent := None;
      due := None;
      assert Pending() + current == old(Pending());
      ghost var w := old(View()).(due := None);
      assert View() == w;
      var job := PolicyCompletes();
      CompleteKeepsClock(jobs, w);
      if job.Some? { output := output + [Output(job.value, sim.simTime)]; }
    }

    /** The head of the queue is the event that Step takes. */
    lemma HeadIsNext()
      requires Valid() && Good(jobs, View()) && current == {} && (arrivalEvent.Some? <==> arrived < |jobs|)
      ensures sim.queue == [] <==> Done(jobs, View())
      ensures sim.queue != [] ==>
        var e := sim.queue[0];
        && e in Pending() && (e.kind == Completion <==> CompletionNext(jobs, View()))
        && (e.kind == Completion ==> due == Some(e.time) && completionEvent == Some(e.id))
        && (e.kind == Arrival ==> arrivalEvent == Some(e.id) && e.time == jobs[arrived].arrival)
    {
      if due.Some? {
        var c := Event(due.value, Completion, completionEvent.value);
        assert c in Pending() && c in Elements(sim.queue);
        HeadFirst(sim.queue, Pending(), sim.id, c);
      }
      if arrived < |jobs| {
        var a := Event(jobs[arrived].arrival, Arrival, arrivalEvent.value);
        assert a in Pending() && a in Elements(sim.queue);
        HeadFirst(sim.queue, Pending(), sim.id, a);
      }
      assert sim.queue != [] ==> sim.queue[0] in Elements(sim.queue);
    }

    /** One pass of simulatorRun's loop: the event stays in the queue while its callback runs. */
    method Turn()
      requires Valid() && Good(jobs, View()) && current == {} && (arrivalEvent.Some? <==> arrived < |jobs|)
      requires arrived + 1 < |jobs| ==> jobs[arrived].arrival <= jobs[arrived + 1].arrival
      requires sim.queue != []
      modifies this, sim
      ensures !Done(jobs, old(View())) && View() == Step(jobs, old(View()))
      ensures Valid() && current == {} && (arrivalEvent.Some? <==> arrived < |jobs|)
    {
      HeadIsNext();
      var node := sim.queue[0];
      SameEvent(jobs, View(), node.time);
      sim.simTime := node.time;
      hide Arrive, Complete, Good, Holds;
      assert View() == old(View()).(now := node.time);
      if node.kind == Completion {
        CompletionCallback();
      } else {
        ArrivalCallback();
      }
      Retire(node);
    }

    /** The end of the pass: the event leaves the queue, wherever it stands by now. */
    method Retire(node: Event)
      requires Valid() && current == {node}
      modifies this`current, sim`queue
      ensures Valid() && current == {} && View() == old(View())
    {
      sim.RemoveEvent(node.id, Pending() + current, node);
      assert Pending() + current - {node} == Pending();
      current := {};
    }

    /** simulatorRun. */
    method SimulatorRun()
      requires Valid() && Inv(jobs, View()) && current == {} && (arrivalEvent.Some? <==> arrived < |jobs|)
      modifies this, sim
      ensures View() == RunToEnd(jobs, old(View())) && sim.queue == []
    {
      ghost var w0 := View();
      while |sim.queue| > 0
        invariant Valid() && Inv(jobs, View()) && current == {} && (arrivalEvent.Some? <==> arrived < |jobs|)
        invariant RunToEnd(jobs, View()) == RunToEnd(jobs, w0)
        decreases Load(jobs, View())
      {
        InvIsGood(jobs, View());
        SortedNext(jobs, View());
        HeadIsNext();
        StepAdvances(jobs, View());
        Turn();
      }
      InvIsGood(jobs, View());
      HeadIsNext();
    }
  }

  lemma SortedNext(tr: seq<Job>, w: World)
    requires Inv(tr, w)
    ensures w.arrived + 1 < |tr| ==> tr[w.arrived].arrival <= tr[w.arrived + 1].arrival
  {
  }

  lemma SameEvent(tr: seq<Job>, w: World, t: nat)
    requires Good(tr, w)
    ensures Good(tr, w.(now := t))
    ensures w.due == Some(t) ==> Complete(tr, w.(now := t)) == Complete(tr, w)
    ensures w.arrived < |tr| ==> Arrive(tr, w.(now := t)) == Arrive(tr, w)
  {
  }

  /** traceRun: the lines written for a trace, under a policy. */
  method TraceRun(tr: seq<Job>, p: Policy) returns (output: seq<Output>, end: nat)
    requires SimulatedRuns.Valid(tr)
    ensures output == Finished(tr, p).output && end == FinalTime(tr)
    ensures GoodOutput(tr, output, end)
    ensures forall j: nat :: j < |tr| ==> multiset(Lines(output))[j] == 1
    ensures p == FCFS ==> |output| == |tr| && forall i :: 0 <= i < |tr| ==> output[i] == Output(i, ServedFirst(tr, i + 1))
  {
    hide Inv, RunToEnd, GoodOutput, Holds, NewInfo, Sizes, SimulatedRuns.Valid;
    var trace := new Trace(tr, p);
    InitialInv(tr, p);
    trace.ScheduleNextArrival();
    trace.SimulatorRun();
    FinalTimeIsPolicyIndependent(tr, p);
    EveryJobOnce(tr, p);
    if p == FCFS { FcfsClosedForm(tr); }
    output, end := trace.output, trace.sim.simTime;
  }

  lemma ScheduleKeepsClock(tr: seq<Job>, w: World, j: nat)
    requires Good(tr, w) && j < |tr|
    ensures ScheduleJob(tr, w, j).now == w.now && ScheduleJob(tr, w, j).arrived == w.arrived
  {
  }

  lemma CompleteKeepsClock(tr: seq<Job>, w: World)
    requires Good(tr, w)
    ensures CompleteJob(tr, w).0.now == w.now && CompleteJob(tr, w).0.arrived == w.arrived
  {
  }

  lemma {:induction false} TopIs(qs: seq<seq<Task>>, l: nat, i: nat)
    requires l <= i <= |qs| && (forall k :: l <= k < i ==> qs[k] == []) && (i < |qs| ==> qs[i] != [])
    ensures Top(qs, l) == i
  {
  }

  lemma EnqueueNamed(n: nat, qs: seq<seq<Task>>, t: Task)
    requires NamedTasks(n, qs) && t.job < n && t.level < LEVELS
    ensures NamedTasks(n, Enqueue(qs, t))
  {
    var qs': seq<seq<Task>> := Enqueue(qs, t);
    forall k, i | 0 <= k < |qs'| && 0 <= i < |qs'[k]| ensures qs'[k][i].job < n && qs'[k][i].level == k {
      assert i < |qs[k]| ==> qs'[k][i] == qs[k][i];
    }
  }
}

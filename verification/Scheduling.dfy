/** A simulated run as a sequence of events: jobs of a trace arrive, and one of four policies serves them.
    Here the event queue is reduced to what it means, at most one pending arrival and one pending completion;
    module Simulator keeps the queue itself. A job is named by its position in the trace. */
module Scheduling {
  import opened Basics

  datatype Job = Job(id: nat, arrival: nat, size: nat)

  /** mlfq_job_t. */
  datatype Task = Task(job: nat, level: nat)

  const LEVELS: nat := 10
  const UINT64_MAX: nat := 0xffff_ffff_ffff_ffff

  /** What each policy keeps. */
  datatype Info =
    | Fcfs(jobQueue: seq<nat>)
    | Lcfs(jobQueue: seq<nat>, currentJob: Option<nat>)
    | Sjf(jobQueue: seq<nat>, currentJob: Option<nat>)
    | Mlfq(queues: seq<seq<Task>>, running: Option<Task>, lastTime: nat)

  datatype Output = Output(job: nat, time: nat)

  /** The clock, the time of the pending completion, the remaining time of each job, the policy's state, the
      number of jobs that have arrived, and the lines written so far. */
  datatype World = World(
    now: nat, due: Option<nat>, left: seq<nat>, info: Info, arrived: nat, output: seq<Output>)

  // ---------- The operations of the scheduler ----------

  /** schedulerScheduleNextCompletion: refused when a completion is pending. */
  function SetDue(w: World, t: nat): World {
    if w.due.Some? then w else w.(due := Some(t))
  }

  /** (size, id) of j is below (t, id). */
  predicate Shorter(tr: seq<Job>, j: nat, t: nat, id: nat)
    requires j < |tr|
  {
    tr[j].size < t || (tr[j].size == t && tr[j].id < id)
  }

  predicate Named(tr: seq<Job>, q: seq<nat>) { forall i {:trigger q[i]} :: 0 <= i < |q| ==> q[i] < |tr| }

  /** The scan of schedulerSJFCompleteJob over the first jobs of the list; it starts from (UINT64_MAX, UINT64_MAX). */
  function Best(tr: seq<Job>, q: seq<nat>): (r: Option<nat>)
    requires Named(tr, q)
    ensures r.Some? ==> r.value in q
  {
    if q == [] then None
    else
      var n, j := |q| - 1, q[|q| - 1];
      var b := Best(tr, q[..n]);
      if Shorter(tr, j, BestTime(tr, b), BestId(tr, b)) then Some(j) else b
  }

  function BestTime(tr: seq<Job>, b: Option<nat>): nat { if b.Some? && b.value < |tr| then tr[b.value].size else UINT64_MAX }
  function BestId(tr: seq<Job>, b: Option<nat>): nat { if b.Some? && b.value < |tr| then tr[b.value].id else UINT64_MAX }

  /** The first non-empty level from l on, or |qs|. */
  function Top(qs: seq<seq<Task>>, l: nat): (r: nat)
    requires l <= |qs|
    ensures l <= r <= |qs|
    ensures forall k :: l <= k < r ==> qs[k] == []
    ensures r < |qs| ==> qs[r] != []
    decreases |qs| - l
  {
    if l == |qs| || qs[l] != [] then l else Top(qs, l + 1)
  }

  /** The tasks an MLFQ state holds belong to the trace, and its levels exist. */
  predicate NamedTasks(n: nat, qs: seq<seq<Task>>) {
    && |qs| == LEVELS
    && forall l, i {:trigger qs[l][i]} :: 0 <= l < |qs| && 0 <= i < |qs[l]| ==> qs[l][i].job < n && qs[l][i].level == l
  }

  predicate NamedInfo(n: nat, info: Info) {
    match info
    case Fcfs(q) => forall i {:trigger q[i]} :: 0 <= i < |q| ==> q[i] < n
    case Lcfs(q, c) => (forall i {:trigger q[i]} :: 0 <= i < |q| ==> q[i] < n) && (c.Some? ==> c.value < n)
    case Sjf(q, c) => (forall i {:trigger q[i]} :: 0 <= i < |q| ==> q[i] < n) && (c.Some? ==> c.value < n)
    case Mlfq(qs, r, _) => NamedTasks(n, qs) && (r.Some? ==> r.value.job < n && r.value.level < LEVELS)
  }

  /** Every job the state names is in the trace. */
  predicate Good(tr: seq<Job>, w: World) {
    |w.left| == |tr| && w.arrived <= |tr| && NamedInfo(|tr|, w.info)
  }

  /** schedule_next of MLFQ: the head of the first non-empty level runs for at most one unit. */
  function Dispatch(w: World): World
    requires w.info.Mlfq? && NamedInfo(|w.left|, w.info)
  {
    var qs := w.info.queues;
    var l := Top(qs, 0);
    if l == |qs| then w.(info := Mlfq(qs, None, w.info.lastTime))
    else
      var t := qs[l][0];
      SetDue(w.(info := Mlfq(qs[l := qs[l][1..]], Some(t), w.now)), w.now + Min(w.left[t.job], 1))
  }

  function Enqueue(qs: seq<seq<Task>>, t: Task): seq<seq<Task>>
    requires t.level < |qs|
  {
    qs[t.level := qs[t.level] + [t]]
  }

  /** How long the running task has run, as the unsigned difference of the two times. */
  function RunSoFar(w: World): nat
    requires w.info.Mlfq?
  {
    (w.now - w.info.lastTime) % (UINT64_MAX + 1)
  }

  /** The preemption in schedulerMLFQScheduleJob, the partial slice included. */
  function Preempt(w: World): World
    requires w.info.Mlfq? && w.info.running.Some? && NamedInfo(|w.left|, w.info)
  {
    var t := w.info.running.value;
    var run := Min(RunSoFar(w), w.left[t.job]);
    var t' := if run >= 1 && t.level < LEVELS - 1 then t.(level := t.level + 1) else t;
    Dispatch(w.(due := None,
                left := w.left[t.job := w.left[t.job] - run],
                info := Mlfq(Enqueue(w.info.queues, t'), None, w.info.lastTime)))
  }

  /** scheduleJob of each policy, for the arriving job j. */
  function ScheduleJob(tr: seq<Job>, w: World, j: nat): World
    requires Good(tr, w) && j < |tr|
  {
    match w.info
    case Fcfs(q) =>
      var w1 := w.(info := Fcfs([j] + q));
      if |q| + 1 == 1 then SetDue(w1, w.now + tr[j].size) else w1
    case Lcfs(q, c) =>
      if |q| + 1 == 1 then SetDue(w.(info := Lcfs([j] + q, Some(j))), w.now + tr[j].size)
      else w.(info := Lcfs([j] + q, c))
    case Sjf(q, c) =>
      if c.None? then SetDue(w.(info := Sjf([j] + q, Some(j))), w.now + tr[j].size)
      else w.(info := Sjf([j] + q, c))
    case Mlfq(qs, r, last) =>
      var w1 := w.(info := Mlfq(Enqueue(qs, Task(j, 0)), r, last));
      if r.None? then Dispatch(w1) else if 0 < r.value.level then Preempt(w1) else w1
  }

  /** completeJob of each policy: the new state and the finished job, if there is one. */
  function CompleteJob(tr: seq<Job>, w: World): (World, Option<nat>)
    requires Good(tr, w)
  {
    match w.info
    case Fcfs(q) =>
      if q == [] then (w, None)
      else
        var q' := q[..|q| - 1];
        var w1 := w.(info := Fcfs(q'));
        (if q' == [] then w1 else SetDue(w1, w.now + w.left[q'[|q'| - 1]]), Some(q[|q| - 1]))
    case Lcfs(q, c) =>
      if c.None? then (w, None)
      else
        var q' := RemoveFirst(q, c.value);
        RemoveFirstNamed(tr, q, c.value);
        (if q' == [] then w.(info := Lcfs(q', None))
         else SetDue(w.(info := Lcfs(q', Some(q'[0]))), w.now + tr[q'[0]].size), c)
    case Sjf(q, c) =>
      var q' := if c.Some? then RemoveFirst(q, c.value) else q;
      if c.Some? then RemoveFirstNamed(tr, q, c.value); SjfStart(tr, w, q', c) else SjfStart(tr, w, q', c)
    case Mlfq(qs, r, last) =>
      if r.None? then (Dispatch(w), None)
      else
        var t := r.value;
        if w.left[t.job] > 1 then
          var t' := t.(level := Min(t.level + 1, LEVELS - 1));
          (Dispatch(w.(left := w.left[t.job := w.left[t.job] - 1], info := Mlfq(Enqueue(qs, t'), None, last))), None)
        else
          (Dispatch(w.(left := w.left[t.job := 0], info := Mlfq(qs, None, last))), Some(t.job))
  }

  /** The second half of schedulerSJFCompleteJob, once the finished job is off the list. */
  function SjfStart(tr: seq<Job>, w: World, q: seq<nat>, finished: Option<nat>): (World, Option<nat>)
    requires Good(tr, w) && Named(tr, q)
  {
    var next := Best(tr, q);
    (if next.None? then w.(info := Sjf(q, None))
     else SetDue(w.(info := Sjf(q, next)), w.now + tr[next.value].size), finished)
  }

  lemma {:induction false} RemoveFirstNamed(tr: seq<Job>, q: seq<nat>, j: nat)
    requires Named(tr, q)
    ensures Named(tr, RemoveFirst(q, j))
  {
    if q != [] && q[0] != j {
      assert Named(tr, q[1..]);
      RemoveFirstNamed(tr, q[1..], j);
    }
  }

  // ---------- Events ----------

  predicate Done(tr: seq<Job>, w: World) { w.due.None? && w.arrived >= |tr| }

  /** Completions sort before arrivals of the same time. */
  predicate CompletionNext(tr: seq<Job>, w: World) {
    w.due.Some? && (w.arrived < |tr| ==> w.due.value <= tr[w.arrived].arrival)
  }

  /** traceArrivalCallback at its time. */
  function Arrive(tr: seq<Job>, w: World): World
    requires Good(tr, w) && w.arrived < |tr|
  {
    ScheduleJob(tr, w.(now := tr[w.arrived].arrival), w.arrived).(arrived := w.arrived + 1)
  }

  /** schedulerCompleteJob at its time, with traceCompletionCallback for a finished job. */
  function Complete(tr: seq<Job>, w: World): World
    requires Good(tr, w) && w.due.Some?
  {
    var (w', finished) := CompleteJob(tr, w.(now := w.due.value, due := None));
    if finished.Some? then w'.(output := w'.output + [Output(finished.value, w'.now)]) else w'
  }

  function Step(tr: seq<Job>, w: World): World
    requires Good(tr, w) && !Done(tr, w)
  {
    if CompletionNext(tr, w) then Complete(tr, w) else Arrive(tr, w)
  }

  datatype Policy = FCFS | LCFS | SJF | MLFQ

  function PolicyOf(info: Info): Policy {
    match info
    case Fcfs(_) => FCFS
    case Lcfs(_, _) => LCFS
    case Sjf(_, _) => SJF
    case Mlfq(_, _, _) => MLFQ
  }

  function NewInfo(p: Policy): Info {
    match p
    case FCFS => Fcfs([])
    case LCFS => Lcfs([], None)
    case SJF => Sjf([], None)
    case MLFQ => Mlfq(seq(LEVELS, _ => []), None, 0)
  }

  function Sizes(tr: seq<Job>): seq<nat> { seq(|tr|, i requires 0 <= i < |tr| => tr[i].size) }

  function Initial(tr: seq<Job>, p: Policy): World {
    World(0, None, Sizes(tr), NewInfo(p), 0, [])
  }
}

/** What every event of a simulated run does, whatever the policy. */
module SchedulingProofs {
  import opened Basics
  import opened Scheduling

  // ---------- The jobs in the system ----------

  function Jobs(q: seq<Task>): multiset<nat> {
    if q == [] then multiset{} else multiset{q[0].job} + Jobs(q[1..])
  }

  function AllJobs(qs: seq<seq<Task>>): multiset<nat> {
    if qs == [] then multiset{} else Jobs(qs[0]) + AllJobs(qs[1..])
  }

  /** The jobs that have arrived and not finished, the running one included. */
  function InSystem(info: Info): multiset<nat> {
    match info
    case Fcfs(q) => multiset(q)
    case Lcfs(q, _) => multiset(q)
    case Sjf(q, _) => multiset(q)
    case Mlfq(qs, r, _) => AllJobs(qs) + (if r.Some? then multiset{r.value.job} else multiset{})
  }

  /** The job being served. */
  function Running(info: Info): Option<nat> {
    match info
    case Fcfs(q) => if q == [] then None else Some(q[|q| - 1])
    case Lcfs(_, c) => c
    case Sjf(_, c) => c
    case Mlfq(_, r, _) => if r.Some? then Some(r.value.job) else None
  }

  /** How much service the pending completion stands for: the whole job, or one unit of it. */
  function Slice(w: World): nat
    requires Running(w.info).Some? && Running(w.info).value < |w.left|
  {
    if w.info.Mlfq? then Min(w.left[Running(w.info).value], 1) else w.left[Running(w.info).value]
  }

  /** When the service in progress began. */
  function Began(w: World): int
    requires w.due.Some? && Running(w.info).Some? && Running(w.info).value < |w.left|
  {
    w.due.value - Slice(w)
  }

  /** What holds of each policy's own state between events. */
  ghost predicate Sane(tr: seq<Job>, w: World)
    requires Good(tr, w)
  {
    && (w.due.Some? <==> Running(w.info).Some?)
    && (Running(w.info).None? <==> InSystem(w.info) == multiset{})
    && (Running(w.info).Some? ==> Running(w.info).value in InSystem(w.info) && 0 <= Began(w) <= w.now)
    && (w.info.Mlfq? ==> Levelled(tr, w))
    && (!w.info.Mlfq? ==> forall j {:trigger w.left[j]} :: 0 <= j < |tr| ==> w.left[j] == tr[j].size)
  }

  /** Multi-level feedback: what is left of a job gives its level, and the running task is on a level no
      lower in rank than any that waits, in a slice that began at lastTime. */
  ghost predicate Levelled(tr: seq<Job>, w: World)
    requires Good(tr, w) && w.info.Mlfq?
  {
    var Mlfq(qs, r, last) := w.info;
    && (forall j {:trigger w.left[j]} :: 0 <= j < |tr| ==> w.left[j] <= tr[j].size)
    && (forall l, i {:trigger qs[l][i]} :: 0 <= l < |qs| && 0 <= i < |qs[l]| ==> RightLevel(tr, w.left, qs[l][i]))
    && (r.Some? ==> RightLevel(tr, w.left, r.value))
    && (r.Some? ==> w.due == Some(last + Min(w.left[r.value.job], 1)) && last <= w.now)
    && (r.Some? ==> forall l {:trigger qs[l]} :: 0 <= l < |qs| && qs[l] != [] ==> r.value.level <= l)
    && (forall j {:trigger w.left[j]} :: w.arrived <= j < |tr| ==> w.left[j] == tr[j].size)
  }

  predicate RightLevel(tr: seq<Job>, left: seq<nat>, t: Task) {
    t.job < |tr| == |left| && left[t.job] <= tr[t.job].size &&
    t.level == Min(LEVELS - 1, tr[t.job].size - left[t.job])
  }

  ghost predicate Once(w: World, j: nat) {
    InSystem(w.info)[j] + multiset(Lines(w.output))[j] == if j < w.arrived then 1 else 0
  }

  function Lines(o: seq<Output>): seq<nat> { seq(|o|, i requires 0 <= i < |o| => o[i].job) }

  // ---------- What an event does ----------

  /** An arrival: the job joins, nobody loses or gains service, and service that was in progress counts from
      the same moment as before. */
  ghost predicate Arrival(tr: seq<Job>, w: World, w': World)
    requires Good(tr, w) && Sane(tr, w) && Good(tr, w') && Sane(tr, w') && w.arrived < |tr|
  {
    && w'.now == tr[w.arrived].arrival && w'.arrived == w.arrived + 1 && w'.output == w.output && w'.left == w.left
    && InSystem(w'.info) == InSystem(w.info) + multiset{w.arrived}
    && w'.due.Some? && Began(w') == (if w.due.None? then w'.now else Began(w))
    && (w.due.Some? && Running(w'.info) != Running(w.info) ==> w.info.Mlfq? && Began(w) == w'.now)
    && (w.due.Some? && !w.info.Mlfq? ==> w'.due == w.due)
    && w'.info.Mlfq? == w.info.Mlfq?
  }

  /** A completion: the running job gets its slice of service; it leaves exactly when nothing of it is left;
      the next service begins at once if any job is there. */
  ghost predicate Completion(tr: seq<Job>, w: World, w': World)
    requires Good(tr, w) && Sane(tr, w) && Good(tr, w') && Sane(tr, w') && w.due.Some?
  {
    var r, s := Running(w.info).value, Slice(w);
    && w'.now == w.due.value && w'.arrived == w.arrived
    && (if s == w.left[r]
        then InSystem(w'.info) == InSystem(w.info) - multiset{r} && w'.output == w.output + [Output(r, w'.now)]
        else InSystem(w'.info) == InSystem(w.info) && w'.output == w.output)
    && (forall j {:trigger w'.left[j]} :: 0 <= j < |tr| && j != r ==> w'.left[j] == w.left[j])
    && (s < w.left[r] ==> w'.left[r] == w.left[r] - s)
    && (w'.due.Some? ==> Began(w') == w'.now)
    && w'.info.Mlfq? == w.info.Mlfq?
  }

  lemma StepKeepsPolicy(tr: seq<Job>, w: World)
    requires Good(tr, w) && !Done(tr, w)
    ensures PolicyOf(Step(tr, w).info) == PolicyOf(w.info)
  {
  }

  // ---------- The policies without preemption ----------

  /** The next event is the arrival of the next job, which is not in the past and not after the pending
      completion. */
  ghost predicate ArrivalNext(tr: seq<Job>, w: World)
    requires Good(tr, w)
  {
    && w.arrived < |tr| && w.now <= tr[w.arrived].arrival
    && (w.due.Some? ==> tr[w.arrived].arrival < w.due.value)
  }

  ghost predicate CompletionDue(tr: seq<Job>, w: World)
    requires Good(tr, w)
  {
    w.due.Some? && w.now <= w.due.value
  }

  lemma FcfsArrives(tr: seq<Job>, w: World)
    requires Good(tr, w) && Sane(tr, w) && ArrivalNext(tr, w) && w.info.Fcfs?
    ensures var w' := Arrive(tr, w); Good(tr, w') && Sane(tr, w') && Arrival(tr, w, w')
  {
    var q := w.info.jobQueue;
    assert multiset([w.arrived] + q) == multiset{w.arrived} + multiset(q);
  }

  lemma FcfsCompletes(tr: seq<Job>, w: World)
    requires Good(tr, w) && Sane(tr, w) && CompletionDue(tr, w) && w.info.Fcfs?
    ensures var w' := Complete(tr, w); Good(tr, w') && Sane(tr, w') && Completion(tr, w, w')
  {
    var q := w.info.jobQueue;
    assert q == q[..|q| - 1] + [q[|q| - 1]];
  }

  lemma LcfsArrives(tr: seq<Job>, w: World)
    requires Good(tr, w) && Sane(tr, w) && ArrivalNext(tr, w) && w.info.Lcfs?
    ensures var w' := Arrive(tr, w); Good(tr, w') && Sane(tr, w') && Arrival(tr, w, w')
  {
    var q := w.info.jobQueue;
    assert multiset([w.arrived] + q) == multiset{w.arrived} + multiset(q);
    assert q != [] ==> q[0] in multiset(q);
  }

  lemma LcfsCompletes(tr: seq<Job>, w: World)
    requires Good(tr, w) && Sane(tr, w) && CompletionDue(tr, w) && w.info.Lcfs?
    ensures var w' := Complete(tr, w); Good(tr, w') && Sane(tr, w') && Completion(tr, w, w')
  {
    var q, c := w.info.jobQueue, w.info.currentJob.value;
    RemoveFirstTakesOne(q, c);
    RemoveFirstNamed(tr, q, c);
    var q' := RemoveFirst(q, c);
    assert q' != [] ==> q'[0] in multiset(q');
  }

  lemma SjfArrives(tr: seq<Job>, w: World)
    requires Good(tr, w) && Sane(tr, w) && ArrivalNext(tr, w) && w.info.Sjf?
    ensures var w' := Arrive(tr, w); Good(tr, w') && Sane(tr, w') && Arrival(tr, w, w')
  {
    var q := w.info.jobQueue;
    assert multiset([w.arrived] + q) == multiset{w.arrived} + multiset(q);
    assert q != [] ==> q[0] in multiset(q);
  }

  /** The scan finds a job no other is shorter than, and finds one unless every job ties with its start. */
  lemma {:induction false} BestIsLeast(tr: seq<Job>, q: seq<nat>)
    requires Named(tr, q)
    ensures forall i {:trigger q[i]} :: 0 <= i < |q| ==> !Shorter(tr, q[i], BestTime(tr, Best(tr, q)), BestId(tr, Best(tr, q)))
    ensures Best(tr, q).None? <==> forall i {:trigger q[i]} :: 0 <= i < |q| ==> !Shorter(tr, q[i], UINT64_MAX, UINT64_MAX)
  {
    if q != [] {
      assert Named(tr, q[..|q| - 1]);
      BestIsLeast(tr, q[..|q| - 1]);
      assert forall i :: 0 <= i < |q| - 1 ==> q[..|q| - 1][i] == q[i];
      var b := Best(tr, q[..|q| - 1]);
      if b.Some? { BestBelowStart(tr, q[..|q| - 1]); }
    }
  }

  lemma {:induction false} BestBelowStart(tr: seq<Job>, q: seq<nat>)
    requires Named(tr, q) && Best(tr, q).Some?
    ensures Best(tr, q).value < |tr| && Shorter(tr, Best(tr, q).value, UINT64_MAX, UINT64_MAX)
  {
    var n := |q| - 1;
    assert Named(tr, q[..n]);
    if Best(tr, q[..n]).Some? { BestBelowStart(tr, q[..n]); }
  }

  /** No job that waits ties with the start of the scan. */
  ghost predicate ScanSees(tr: seq<Job>, w: World)
    requires Good(tr, w)
  {
    w.info.Sjf? ==> forall i {:trigger w.info.jobQueue[i]} :: 0 <= i < |w.info.jobQueue| ==>
      Some(w.info.jobQueue[i]) == w.info.currentJob || Shorter(tr, w.info.jobQueue[i], UINT64_MAX, UINT64_MAX)
  }

  lemma SjfCompletes(tr: seq<Job>, w: World)
    requires Good(tr, w) && Sane(tr, w) && CompletionDue(tr, w) && w.info.Sjf? && ScanSees(tr, w)
    requires InSystem(w.info)[w.info.currentJob.value] == 1
    ensures var w' := Complete(tr, w); Good(tr, w') && Sane(tr, w') && Completion(tr, w, w')
  {
    var q, c := w.info.jobQueue, w.info.currentJob.value;
    RemoveFirstTakesOne(q, c);
    RemoveFirstNamed(tr, q, c);
    var q' := RemoveFirst(q, c);
    BestIsLeast(tr, q');
    if q' != [] {
      assert q'[0] in multiset(q') && q'[0] in multiset(q) && c !in multiset(q');
      assert q'[0] in q;
    }
  }
}

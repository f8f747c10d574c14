/** Whole simulated runs, for every policy: when they end, that they end, and who finishes when. */
module SimulatedRuns {
  import opened Basics
  import opened Scheduling
  import opened SchedulingProofs
  import opened MlfqProofs

  // ---------- Sums over the jobs in the system ----------

  function Sum(f: seq<nat>, s: multiset<nat>, n: nat): nat
    requires n <= |f|
  {
    if n == 0 then 0 else Sum(f, s, n - 1) + if n - 1 in s then f[n - 1] else 0
  }

  function Part(f: seq<nat>, s: multiset<nat>, j: nat): nat
    requires j < |f|
  {
    if j in s then f[j] else 0
  }

  /** Two sums that differ at most at j. */
  lemma {:induction false} SumChange(f: seq<nat>, s: multiset<nat>, f': seq<nat>, s': multiset<nat>, j: nat, n: nat)
    requires n <= |f| == |f'| && j < |f|
    requires forall k {:trigger Part(f, s, k)} :: 0 <= k < n && k != j ==> Part(f, s, k) == Part(f', s', k)
    ensures Sum(f', s', n) - Sum(f, s, n) == if j < n then Part(f', s', j) - Part(f, s, j) else 0
  {
    if n > 0 {
      SumChange(f, s, f', s', j, n - 1);
      assert n - 1 != j ==> Part(f, s, n - 1) == Part(f', s', n - 1);
    }
  }

  lemma {:induction false} SumHasTwo(f: seq<nat>, s: multiset<nat>, i: nat, j: nat, n: nat)
    requires n <= |f| && i < n && j < n && i != j
    ensures Part(f, s, i) + Part(f, s, j) <= Sum(f, s, n)
  {
    if n - 1 != i && n - 1 != j {
      SumHasTwo(f, s, i, j, n - 1);
    } else {
      SumHasOne(f, s, if n - 1 == i then j else i, n - 1);
    }
  }

  lemma {:induction false} SumHasOne(f: seq<nat>, s: multiset<nat>, i: nat, n: nat)
    requires i < n <= |f|
    ensures Part(f, s, i) <= Sum(f, s, n)
  {
    if n - 1 != i { SumHasOne(f, s, i, n - 1); }
  }

  lemma {:induction false} SumOfNone(f: seq<nat>, n: nat)
    requires n <= |f|
    ensures Sum(f, multiset{}, n) == 0
  {
    if n > 0 { SumOfNone(f, n - 1); }
  }

  // ---------- When everything is served ----------

  /** One server without pauses, free at time c, and the jobs from k on: when it has served them all. */
  function FinishAll(tr: seq<Job>, k: nat, c: nat): nat
    decreases |tr| - k
  {
    if k >= |tr| then c else FinishAll(tr, k + 1, Max(c, tr[k].arrival) + tr[k].size)
  }

  function FinalTime(tr: seq<Job>): nat { FinishAll(tr, 0, 0) }

  lemma {:induction false} FinishAllLater(tr: seq<Job>, k: nat, c: nat)
    ensures c <= FinishAll(tr, k, c)
    decreases |tr| - k
  {
    if k < |tr| { FinishAllLater(tr, k + 1, Max(c, tr[k].arrival) + tr[k].size); }
  }

  /** A trace file: sorted by arrival, with 64-bit numbers whose sum to the last completion fits as well. */
  ghost predicate Valid(tr: seq<Job>) {
    && (forall i, j {:trigger tr[i], tr[j]} :: 0 <= i <= j < |tr| ==> tr[i].arrival <= tr[j].arrival)
    && FinalTime(tr) <= UINT64_MAX
    && forall i {:trigger tr[i]} :: 0 <= i < |tr| ==> tr[i].id <= UINT64_MAX
  }

  /** When the jobs that are in the system will all have been served. */
  function Horizon(tr: seq<Job>, w: World): int
    requires Good(tr, w) && Sound(w)
  {
    if w.due.None? then w.now else Began(w) + Sum(w.left, InSystem(w.info), |w.left|)
  }

  predicate Sound(w: World) { w.due.Some? ==> Running(w.info).Some? && Running(w.info).value < |w.left| }

  // ---------- The invariant ----------

  /** Job j cannot finish before its arrival plus its size, given what it has been served so far. */
  ghost predicate Earliest(tr: seq<Job>, w: World, j: nat)
    requires Good(tr, w) && Sane(tr, w) && j < |tr|
  {
    j in InSystem(w.info) ==>
      (if Running(w.info) == Some(j) then Began(w) else w.now) + w.left[j] >= tr[j].arrival + tr[j].size
  }

  ghost predicate Waiting(w: World, j: nat) {
    j in InSystem(w.info) && Running(w.info) != Some(j)
  }

  ghost predicate Timely(tr: seq<Job>, w: World)
    requires Good(tr, w)
  {
    && (forall j {:trigger tr[j]} :: 0 <= j < w.arrived ==> tr[j].arrival <= w.now)
    && (w.arrived < |tr| ==> w.now <= tr[w.arrived].arrival)
    && (w.due.Some? ==> w.now <= w.due.value)
    && (!w.info.Mlfq? ==> forall j {:trigger Waiting(w, j)} :: Waiting(w, j) ==> w.due.Some? && w.due.value >= 1)
  }

  ghost predicate GoodOutput(tr: seq<Job>, o: seq<Output>, now: nat) {
    && (forall i {:trigger o[i]} :: 0 <= i < |o| ==>
          o[i].job < |tr| && tr[o[i].job].arrival + tr[o[i].job].size <= o[i].time <= now)
    && (forall i, k {:trigger o[i], o[k]} :: 0 <= i <= k < |o| ==> o[i].time <= o[k].time)
  }

  ghost predicate Inv(tr: seq<Job>, w: World) {
    && Valid(tr) && Good(tr, w) && Sane(tr, w) && Timely(tr, w)
    && (forall j {:trigger Once(w, j)} :: j >= 0 ==> Once(w, j))
    && (forall j {:trigger Earliest(tr, w, j)} :: 0 <= j < |tr| ==> Earliest(tr, w, j))
    && GoodOutput(tr, w.output, w.now)
    && Horizon(tr, w) >= 0 && FinishAll(tr, w.arrived, Horizon(tr, w)) == FinalTime(tr)
  }

  lemma InitialSane(tr: seq<Job>, p: Policy)
    ensures Good(tr, Initial(tr, p)) && Sane(tr, Initial(tr, p)) && InSystem(NewInfo(p)) == multiset{}
  {
    var w := Initial(tr, p);
    if p.MLFQ? { EmptyHasNoJobs(w.info.queues); }
  }

  lemma InitialInv(tr: seq<Job>, p: Policy)
    requires Valid(tr)
    ensures Inv(tr, Initial(tr, p))
  {
    InitialSane(tr, p);
    var w := Initial(tr, p);
    hide Sane, InSystem;
    assert Lines(w.output) == [];
    forall j: nat ensures Once(w, j) && !Waiting(w, j) {}
  }

  // ---------- One event ----------

  lemma InSystemInTrace(tr: seq<Job>, w: World, j: nat)
    requires Good(tr, w) && Sane(tr, w) && Once(w, j) && j in InSystem(w.info)
    ensures InSystem(w.info)[j] == 1 && j < w.arrived
  {
  }

  /** The scan for the shortest job never meets its own starting values: such a job's completion would not
      fit in 64 bits. */
  lemma ScanSeesAll(tr: seq<Job>, w: World)
    requires Inv(tr, w)
    ensures ScanSees(tr, w)
  {
    if w.info.Sjf? {
      var q := w.info.jobQueue;
      forall i | 0 <= i < |q|
        ensures Some(q[i]) == w.info.currentJob || Shorter(tr, q[i], UINT64_MAX, UINT64_MAX)
      {
        var j := q[i];
        assert j in InSystem(w.info);
        if Some(j) != w.info.currentJob {
          assert Waiting(w, j);
          SumHasTwo(w.left, InSystem(w.info), w.info.currentJob.value, j, |w.left|);
          FinishAllLater(tr, w.arrived, Horizon(tr, w));
        }
      }
    }
  }

  lemma ArriveArrives(tr: seq<Job>, w: World)
    requires Inv(tr, w) && !CompletionNext(tr, w) && w.arrived < |tr|
    ensures var w' := Arrive(tr, w); Good(tr, w') && Sane(tr, w') && Arrival(tr, w, w')
  {
    hide Arrive, Sane;
    match w.info
    case Fcfs(_) => FcfsArrives(tr, w);
    case Lcfs(_, _) => LcfsArrives(tr, w);
    case Sjf(_, _) => SjfArrives(tr, w);
    case Mlfq(_, _, _) => MlfqArrives(tr, w);
  }

  lemma CompleteCompletes(tr: seq<Job>, w: World)
    requires Inv(tr, w) && CompletionNext(tr, w)
    ensures var w' := Complete(tr, w); Good(tr, w') && Sane(tr, w') && Completion(tr, w, w')
  {
    var r := Running(w.info).value;
    assert r in InSystem(w.info) && Once(w, r);
    InSystemInTrace(tr, w, r);
    ScanSeesAll(tr, w);
    hide Complete, Sane;
    match w.info
    case Fcfs(_) => FcfsCompletes(tr, w);
    case Lcfs(_, _) => LcfsCompletes(tr, w);
    case Sjf(_, _) => SjfCompletes(tr, w);
    case Mlfq(_, _, _) => MlfqCompletes(tr, w);
  }

  // ---------- An arrival keeps the invariant ----------

  lemma ArrivalHorizon(tr: seq<Job>, w: World, w': World)
    requires Inv(tr, w) && ArrivalNext(tr, w) && Good(tr, w') && Sane(tr, w') && Arrival(tr, w, w')
    ensures Horizon(tr, w') == Max(Horizon(tr, w), tr[w.arrived].arrival) + tr[w.arrived].size
  {
    var j, n := w.arrived, |w.left|;
    assert Once(w, j);
    assert j !in InSystem(w.info) && w.left[j] == tr[j].size;
    hide Levelled, InSystem, GoodOutput;
    SumChange(w.left, InSystem(w.info), w'.left, InSystem(w'.info), j, n);
    if w.due.Some? {
      SumHasOne(w.left, InSystem(w.info), Running(w.info).value, n);
    } else {
      SumOfNone(w.left, n);
    }
  }

  lemma ArrivalTimely(tr: seq<Job>, w: World, w': World)
    requires Inv(tr, w) && ArrivalNext(tr, w) && Good(tr, w') && Sane(tr, w') && Arrival(tr, w, w')
    ensures Timely(tr, w')
  {
    hide Levelled, InSystem, GoodOutput, Earliest, Once, Running;
    var j := w.arrived;
    assert forall k {:trigger tr[k]} :: j <= k < |tr| ==> tr[j].arrival <= tr[k].arrival;
    assert w'.due.value >= w'.now;
    assert w.due.None? ==> InSystem(w.info) == multiset{};
  }

  lemma ArrivalOnce(tr: seq<Job>, w: World, w': World, j: nat)
    requires Inv(tr, w) && ArrivalNext(tr, w) && Good(tr, w') && Sane(tr, w') && Arrival(tr, w, w')
    ensures Once(w', j)
  {
    hide Levelled, InSystem, GoodOutput, Earliest, Running, Sane;
    assert Once(w, j);
  }

  lemma ArrivalEarliest(tr: seq<Job>, w: World, w': World, j: nat)
    requires Inv(tr, w) && ArrivalNext(tr, w) && Good(tr, w') && Sane(tr, w') && Arrival(tr, w, w') && j < |tr|
    ensures Earliest(tr, w', j)
  {
    assert Earliest(tr, w, j) && Once(w, w.arrived);
    assert w.left[w.arrived] == tr[w.arrived].size;
    hide Levelled, InSystem, GoodOutput, Once, Running;
  }

  lemma ArrivalKeeps(tr: seq<Job>, w: World, w': World)
    requires Inv(tr, w) && ArrivalNext(tr, w) && Good(tr, w') && Sane(tr, w') && Arrival(tr, w, w')
    ensures Inv(tr, w')
  {
    ArrivalHorizon(tr, w, w');
    ArrivalTimely(tr, w, w');
    forall j: nat ensures Once(w', j) { ArrivalOnce(tr, w, w', j); }
    forall j: nat | j < |tr| ensures Earliest(tr, w', j) { ArrivalEarliest(tr, w, w', j); }
    hide Sane, Once, Earliest, Horizon;
  }

  // ---------- A completion keeps it ----------

  lemma ServedSum(f: seq<nat>, s: multiset<nat>, f': seq<nat>, s': multiset<nat>, r: nat, slice: nat)
    requires |f| == |f'| && r < |f| && s[r] == 1 && slice <= f[r]
    requires forall k {:trigger f'[k]} :: 0 <= k < |f| && k != r ==> f'[k] == f[k]
    requires if slice == f[r] then s' == s - multiset{r} else s' == s && f'[r] == f[r] - slice
    ensures Sum(f', s', |f|) == Sum(f, s, |f|) - slice
  {
    SumChange(f, s, f', s', r, |f|);
  }

  /** The work in the system shrinks by the slice just served. */
  lemma CompletionServes(tr: seq<Job>, w: World, w': World)
    requires Inv(tr, w) && CompletionDue(tr, w) && Good(tr, w') && Sane(tr, w') && Completion(tr, w, w')
    ensures Sum(w'.left, InSystem(w'.info), |w'.left|) == Sum(w.left, InSystem(w.info), |w.left|) - Slice(w)
  {
    var r := Running(w.info).value;
    assert Once(w, r);
    assert InSystem(w.info)[r] == 1;
    hide Sane, Levelled, InSystem, GoodOutput, Running, Earliest, Horizon, Sum, Once, Timely;
    ServedSum(w.left, InSystem(w.info), w'.left, InSystem(w'.info), r, Slice(w));
  }

  lemma CompletionHorizon(tr: seq<Job>, w: World, w': World)
    requires Inv(tr, w) && CompletionDue(tr, w) && Good(tr, w') && Sane(tr, w') && Completion(tr, w, w')
    ensures Horizon(tr, w') == Horizon(tr, w)
  {
    CompletionServes(tr, w, w');
    hide Levelled, InSystem, GoodOutput, Running, Earliest, Once;
    if w'.due.None? { SumOfNone(w'.left, |w'.left|); }
  }

  lemma CompletionTimely(tr: seq<Job>, w: World, w': World)
    requires Inv(tr, w) && CompletionNext(tr, w) && Good(tr, w') && Sane(tr, w') && Completion(tr, w, w')
    ensures Timely(tr, w')
  {
    hide Levelled, InSystem, GoodOutput, Earliest, Running;
    assert Once(w, Running(w.info).value);
    forall k | !w'.info.Mlfq? && Waiting(w', k) ensures w'.due.value >= 1 {
      assert k in InSystem(w.info) && Waiting(w, k);
    }
  }

  lemma {:induction false} LinesAppend(o: seq<Output>, x: Output)
    ensures multiset(Lines(o + [x])) == multiset(Lines(o)) + multiset{x.job}
  {
    assert Lines(o + [x]) == Lines(o) + [x.job];
  }

  lemma CompletionOnce(tr: seq<Job>, w: World, w': World, j: nat)
    requires Inv(tr, w) && CompletionDue(tr, w) && Good(tr, w') && Sane(tr, w') && Completion(tr, w, w')
    ensures Once(w', j)
  {
    var r := Running(w.info).value;
    assert Once(w, j) && Once(w, r);
    hide Levelled, InSystem, GoodOutput, Earliest, Running, Lines;
    LinesAppend(w.output, Output(r, w'.now));
  }

  lemma CompletionEarliest(tr: seq<Job>, w: World, w': World, j: nat)
    requires Inv(tr, w) && CompletionDue(tr, w) && Good(tr, w') && Sane(tr, w') && Completion(tr, w, w') && j < |tr|
    ensures Earliest(tr, w', j)
  {
    var r := Running(w.info).value;
    assert Earliest(tr, w, j) && Once(w, r);
    hide Levelled, InSystem, GoodOutput, Running, Lines;
    assert InSystem(w.info)[r] == 1;
  }

  lemma OutputAppend(tr: seq<Job>, o: seq<Output>, x: Output, now: nat)
    requires GoodOutput(tr, o, now) && now <= x.time
    requires x.job < |tr| && tr[x.job].arrival + tr[x.job].size <= x.time
    ensures GoodOutput(tr, o + [x], x.time)
  {
  }

  lemma LaterNow(tr: seq<Job>, o: seq<Output>, now: nat, now': nat)
    requires GoodOutput(tr, o, now) && now <= now'
    ensures GoodOutput(tr, o, now')
  {
  }

  lemma CompletionOutput(tr: seq<Job>, w: World, w': World)
    requires Inv(tr, w) && CompletionDue(tr, w) && Good(tr, w') && Sane(tr, w') && Completion(tr, w, w')
    ensures GoodOutput(tr, w'.output, w'.now)
  {
    var r := Running(w.info).value;
    assert Earliest(tr, w, r) && w.now <= w'.now;
    hide Levelled, InSystem, Running, Lines, Once, GoodOutput;
    if Slice(w) != w.left[r] { LaterNow(tr, w.output, w.now, w'.now); }
    if Slice(w) == w.left[r] {
      hide Sane;
      OutputAppend(tr, w.output, Output(r, w'.now), w.now);
    }
  }

  lemma CompletionKeeps(tr: seq<Job>, w: World, w': World)
    requires Inv(tr, w) && CompletionNext(tr, w) && Good(tr, w') && Sane(tr, w') && Completion(tr, w, w')
    ensures Inv(tr, w')
  {
    CompletionHorizon(tr, w, w');
    CompletionTimely(tr, w, w');
    CompletionOutput(tr, w, w');
    forall j: nat ensures Once(w', j) { CompletionOnce(tr, w, w', j); }
    forall j: nat | j < |tr| ensures Earliest(tr, w', j) { CompletionEarliest(tr, w, w', j); }
    hide Sane, Once, Earliest, Horizon, GoodOutput;
  }

  lemma StepKeeps(tr: seq<Job>, w: World)
    requires Inv(tr, w) && !Done(tr, w)
    ensures Inv(tr, Step(tr, w))
  {
    if CompletionNext(tr, w) {
      CompleteCompletes(tr, w);
      CompletionKeeps(tr, w, Complete(tr, w));
    } else {
      ArriveArrives(tr, w);
      ArrivalKeeps(tr, w, Arrive(tr, w));
    }
  }

  // ---------- Runs end ----------

  function Weights(left: seq<nat>): seq<nat> { seq(|left|, j requires 0 <= j < |left| => Max(1, left[j])) }

  /** The events the jobs from k on can cause. */
  function Ahead(tr: seq<Job>, k: nat): nat
    decreases |tr| - k
  {
    if k >= |tr| then 0 else 1 + Max(1, tr[k].size) + Ahead(tr, k + 1)
  }

  /** A job that has yet to arrive counts one for its arrival and its size, at least one, for its service; a
      job in the system what is left of it, at least one. */
  function Load(tr: seq<Job>, w: World): nat {
    Ahead(tr, w.arrived) + Sum(Weights(w.left), InSystem(w.info), |w.left|)
  }

  lemma JoinedWeighs(f: seq<nat>, s: multiset<nat>, j: nat)
    requires j < |f| && j !in s
    ensures Sum(Weights(f), s + multiset{j}, |f|) == Sum(Weights(f), s, |f|) + Max(1, f[j])
  {
    SumChange(Weights(f), s, Weights(f), s + multiset{j}, j, |f|);
  }

  lemma ArrivalDescends(tr: seq<Job>, w: World, w': World)
    requires Inv(tr, w) && ArrivalNext(tr, w) && Good(tr, w') && Sane(tr, w') && Arrival(tr, w, w')
    ensures Load(tr, w') < Load(tr, w)
  {
    var j := w.arrived;
    assert Once(w, j);
    assert j !in InSystem(w.info) && w.left[j] == tr[j].size;
    hide Sane, Levelled, InSystem, GoodOutput, Earliest, Horizon, Once, Sum, Timely;
    JoinedWeighs(w.left, InSystem(w.info), j);
  }

  /** What is left after a completion weighs less. */
  lemma ServedWeighsLess(f: seq<nat>, s: multiset<nat>, f': seq<nat>, s': multiset<nat>, r: nat)
    requires |f| == |f'| && r < |f| && s[r] == 1
    requires forall k {:trigger f'[k]} :: 0 <= k < |f| && k != r ==> f'[k] == f[k]
    requires s' == s - multiset{r} || (s' == s && f[r] > 1 && f'[r] == f[r] - 1)
    ensures Sum(Weights(f'), s', |f|) < Sum(Weights(f), s, |f|)
  {
    SumChange(Weights(f), s, Weights(f'), s', r, |f|);
  }

  lemma CompletionDescends(tr: seq<Job>, w: World, w': World)
    requires Inv(tr, w) && CompletionDue(tr, w) && Good(tr, w') && Sane(tr, w') && Completion(tr, w, w')
    ensures Load(tr, w') < Load(tr, w)
  {
    var r := Running(w.info).value;
    assert Once(w, r);
    assert InSystem(w.info)[r] == 1;
    hide Sane, Levelled, InSystem, GoodOutput, Earliest, Horizon, Once, Running, Sum;
    ServedWeighsLess(w.left, InSystem(w.info), w'.left, InSystem(w'.info), r);
  }

  lemma StepAdvances(tr: seq<Job>, w: World)
    requires Inv(tr, w) && !Done(tr, w)
    ensures Inv(tr, Step(tr, w)) && Load(tr, Step(tr, w)) < Load(tr, w)
    ensures w.now <= Step(tr, w).now && PolicyOf(Step(tr, w).info) == PolicyOf(w.info)
  {
    StepKeeps(tr, w);
    StepKeepsPolicy(tr, w);
    hide Load, Complete, Arrive;
    if CompletionNext(tr, w) {
      CompleteCompletes(tr, w);
      CompletionDescends(tr, w, Complete(tr, w));
    } else {
      ArriveArrives(tr, w);
      ArrivalDescends(tr, w, Arrive(tr, w));
    }
  }

  lemma InvIsGood(tr: seq<Job>, w: World)
    requires Inv(tr, w)
    ensures Good(tr, w)
  {
  }

  /** The state after at most n events. */
  ghost function After(tr: seq<Job>, w: World, n: nat): (r: World)
    requires Inv(tr, w)
    ensures Inv(tr, r) && w.now <= r.now && PolicyOf(r.info) == PolicyOf(w.info)
    decreases n
  {
    hide Inv, Step, Load, PolicyOf, Good;
    InvIsGood(tr, w);
    if n == 0 || Done(tr, w) then w
    else
      StepAdvances(tr, w);
      After(tr, Step(tr, w), n - 1)
  }

  /** simulatorRun: events until there are none. */
  ghost function RunToEnd(tr: seq<Job>, w: World): (r: World)
    requires Inv(tr, w)
    ensures Inv(tr, r) && Done(tr, r) && PolicyOf(r.info) == PolicyOf(w.info)
    decreases Load(tr, w)
  {
    hide Inv, Step, Load, PolicyOf, Good;
    InvIsGood(tr, w);
    if Done(tr, w) then w
    else
      StepAdvances(tr, w);
      RunToEnd(tr, Step(tr, w))
  }

  /** A run takes no more events than its load counts. */
  lemma {:induction false} RunEndsWithin(tr: seq<Job>, w: World, n: nat)
    requires Inv(tr, w) && Load(tr, w) <= n
    ensures After(tr, w, n) == RunToEnd(tr, w)
    decreases n
  {
    hide Inv, Step, Load, PolicyOf, Good;
    InvIsGood(tr, w);
    if !Done(tr, w) {
      StepAdvances(tr, w);
      RunEndsWithin(tr, Step(tr, w), n - 1);
    }
  }

  // ---------- What every run does ----------

  /** traceRun up to simulatorRun. */
  ghost function Started(tr: seq<Job>, p: Policy): (r: World)
    requires Valid(tr)
    ensures Inv(tr, r) && PolicyOf(r.info) == p
  {
    InitialInv(tr, p);
    Initial(tr, p)
  }

  ghost function Finished(tr: seq<Job>, p: Policy): World
    requires Valid(tr)
  {
    RunToEnd(tr, Started(tr, p))
  }

  /** The clock ends where one server that never pauses would end, whatever the policy. */
  lemma FinalTimeIsPolicyIndependent(tr: seq<Job>, p: Policy)
    requires Valid(tr)
    ensures Finished(tr, p).now == FinalTime(tr)
  {
  }

  /** Every job is written exactly once, no earlier than its arrival plus its size, and lines are in order of
      time. */
  lemma EveryJobOnce(tr: seq<Job>, p: Policy)
    requires Valid(tr)
    ensures forall j: nat {:trigger multiset(Lines(Finished(tr, p).output))[j]} ::
      multiset(Lines(Finished(tr, p).output))[j] == if j < |tr| then 1 else 0
    ensures GoodOutput(tr, Finished(tr, p).output, Finished(tr, p).now)
  {
    var w := Finished(tr, p);
    forall j: nat ensures multiset(Lines(w.output))[j] == if j < |tr| then 1 else 0 {
      assert Once(w, j);
    }
  }

  predicate Fits(w: World) { w.now <= UINT64_MAX && (w.due.Some? ==> w.due.value <= UINT64_MAX) }

  lemma InvFits(tr: seq<Job>, w: World)
    requires Inv(tr, w)
    ensures Fits(w)
  {
    hide Once, Earliest, GoodOutput, Levelled;
    FinishAllLater(tr, w.arrived, Horizon(tr, w));
    if w.due.Some? { SumHasOne(w.left, InSystem(w.info), Running(w.info).value, |w.left|); }
  }

  /** No time the simulation computes exceeds 64 bits. */
  lemma TimesFit(tr: seq<Job>, p: Policy, n: nat)
    requires Valid(tr)
    ensures Fits(After(tr, Started(tr, p), n))
  {
    hide After, Started, Inv;
    InvFits(tr, After(tr, Started(tr, p), n));
  }

  /** Multi-level feedback, between any two events: a job runs exactly when a completion is pending; the
      running job's level is at most every waiting job's; a job's level is the service it got, at most 9. And
      when the next event is an arrival, a slice in progress began at that very time. */
  lemma MlfqAlways(tr: seq<Job>, n: nat)
    requires Valid(tr)
    ensures var w := After(tr, Started(tr, MLFQ), n); w.info.Mlfq? && MlfqState(tr, w)
  {
    hide After, Started, Inv, MlfqState;
    MlfqStateHolds(tr, After(tr, Started(tr, MLFQ), n));
  }

  ghost predicate MlfqState(tr: seq<Job>, w: World)
    requires w.info.Mlfq?
  {
    var Mlfq(qs, r, last) := w.info;
    && (r.Some? <==> w.due.Some?)
    && (r.Some? ==> RightLevel(tr, w.left, r.value))
    && (forall l, i {:trigger qs[l][i]} :: 0 <= l < |qs| && 0 <= i < |qs[l]| ==> RightlyWaits(tr, w, l, qs[l][i]))
    && (r.Some? && !CompletionNext(tr, w) && w.arrived < |tr| ==> tr[w.arrived].arrival == last)
  }

  /** Task t waits on level l, the level it should be on, and the running task's level is no higher a number. */
  ghost predicate RightlyWaits(tr: seq<Job>, w: World, l: nat, t: Task)
    requires w.info.Mlfq?
  {
    RightLevel(tr, w.left, t) && t.level == l && w.info.running.Some? && w.info.running.value.level <= l
  }

  lemma MlfqStateHolds(tr: seq<Job>, w: World)
    requires Inv(tr, w) && w.info.Mlfq?
    ensures MlfqState(tr, w)
  {
    hide Once, Earliest, Horizon, GoodOutput, Timely;
    assert Levelled(tr, w);
    var qs: seq<seq<Task>>, r := w.info.queues, w.info.running;
    forall l, i | 0 <= l < |qs| && 0 <= i < |qs[l]| ensures RightlyWaits(tr, w, l, qs[l][i]) {
      MlfqTaskWaits(tr, w, l, i);
    }
    if r.Some? && !CompletionNext(tr, w) && w.arrived < |tr| { MlfqArrivalNow(tr, w); }
    hide Levelled, Sane;
  }

  lemma MlfqArrivalNow(tr: seq<Job>, w: World)
    requires Inv(tr, w) && w.info.Mlfq? && w.info.running.Some? && !CompletionNext(tr, w) && w.arrived < |tr|
    ensures tr[w.arrived].arrival == w.info.lastTime
  {
    hide Once, Earliest, Horizon, GoodOutput;
    PreemptionSeesNoProgress(tr, w);
  }

  lemma MlfqTaskWaits(tr: seq<Job>, w: World, l: nat, i: nat)
    requires Good(tr, w) && Sane(tr, w) && w.info.Mlfq? && l < LEVELS && i < |w.info.queues[l]|
    ensures RightlyWaits(tr, w, l, w.info.queues[l][i])
  {
    TaskIsCounted(w.info.queues, l, i);
    assert Levelled(tr, w);
  }
}

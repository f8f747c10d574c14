/** What is particular to each policy over a whole run: first come first served has a closed form, last come
    first served always starts the newest job, and shortest job first has the least sum of completion times. */
module PolicyRuns {
  import opened Basics
  import opened Scheduling
  import opened SchedulingProofs
  import opened SimulatedRuns

  // ---------- First come first served ----------

  /** When the first k jobs are served, in order of arrival: C_k = max(C_(k-1), a_k) + s_k. */
  function ServedFirst(tr: seq<Job>, k: nat): nat
    requires k <= |tr|
  {
    if k == 0 then 0 else Max(ServedFirst(tr, k - 1), tr[k - 1].arrival) + tr[k - 1].size
  }

  /** Jobs leave in order of arrival, at their closed-form times; those left wait in that order. */
  ghost predicate InOrder(tr: seq<Job>, w: World)
    requires w.info.Fcfs?
  {
    var m, q := |w.output|, w.info.jobQueue;
    && m + |q| == w.arrived <= |tr|
    && (forall i {:trigger q[i]} :: 0 <= i < |q| ==> q[i] == w.arrived - 1 - i)
    && (forall i {:trigger w.output[i]} :: 0 <= i < m ==> w.output[i] == Output(i, ServedFirst(tr, i + 1)))
    && ServedFirst(tr, m) <= w.now
    && (w.due.Some? ==> m < |tr| && w.due.value == ServedFirst(tr, m + 1))
  }

  lemma InOrderArrives(tr: seq<Job>, w: World)
    requires Inv(tr, w) && w.info.Fcfs? && InOrder(tr, w) && !CompletionNext(tr, w) && w.arrived < |tr|
    ensures InOrder(tr, Arrive(tr, w))
  {
    hide Once, Earliest, Horizon, GoodOutput;
    assert Running(w.info).None? <==> w.info.jobQueue == [];
  }

  lemma InOrderCompletes(tr: seq<Job>, w: World)
    requires Inv(tr, w) && w.info.Fcfs? && InOrder(tr, w) && CompletionNext(tr, w)
    ensures InOrder(tr, Complete(tr, w))
  {
    hide Once, Earliest, Horizon, GoodOutput;
    var m, q := |w.output|, w.info.jobQueue;
    assert q[|q| - 1] == m;
    if |q| > 1 {
      assert q[..|q| - 1][|q| - 2] == q[|q| - 2] == m + 1;
      assert tr[m + 1].arrival <= w.now;
      assert w.left[m + 1] == tr[m + 1].size;
    }
  }

  lemma {:induction false} InOrderToTheEnd(tr: seq<Job>, w: World)
    requires Inv(tr, w) && w.info.Fcfs? && InOrder(tr, w)
    ensures RunToEnd(tr, w).info.Fcfs? && InOrder(tr, RunToEnd(tr, w))
    decreases Load(tr, w)
  {
    if !Done(tr, w) {
      StepAdvances(tr, w);
      if CompletionNext(tr, w) { InOrderCompletes(tr, w); } else { InOrderArrives(tr, w); }
      hide Inv, Complete, Arrive, InOrder, Load;
      InOrderToTheEnd(tr, Step(tr, w));
    }
  }

  /** Job i leaves i-th, at the closed-form time. */
  lemma FcfsClosedForm(tr: seq<Job>)
    requires Valid(tr)
    ensures |Finished(tr, FCFS).output| == |tr|
    ensures forall i :: 0 <= i < |tr| ==> Finished(tr, FCFS).output[i] == Output(i, ServedFirst(tr, i + 1))
  {
    var w := Started(tr, FCFS);
    InOrderToTheEnd(tr, w);
    var e := RunToEnd(tr, w);
    EndIsEmpty(tr, e);
  }

  lemma EndIsEmpty(tr: seq<Job>, w: World)
    requires Inv(tr, w) && Done(tr, w)
    ensures InSystem(w.info) == multiset{} && w.arrived == |tr|
  {
  }

  // ---------- Last come first served ----------

  /** The stack has the newest job on top. */
  ghost predicate NewestOnTop(q: seq<nat>) { forall i, k {:trigger q[i], q[k]} :: 0 <= i < k < |q| ==> q[i] > q[k] }

  ghost predicate Stacked(w: World)
    requires w.info.Lcfs?
  {
    NewestOnTop(w.info.jobQueue) && forall i {:trigger w.info.jobQueue[i]} :: 0 <= i < |w.info.jobQueue| ==> w.info.jobQueue[i] < w.arrived
  }

  /** No job in the system arrived after the one being served. */
  ghost predicate RunsNewest(w: World)
    requires w.info.Lcfs?
  {
    forall j: nat {:trigger InSystem(w.info)[j]} :: InSystem(w.info)[j] > 0 ==>
      w.info.currentJob.Some? && j <= w.info.currentJob.value
  }

  lemma {:induction false} RemoveKeepsOrder(q: seq<nat>, j: nat)
    requires NewestOnTop(q)
    ensures NewestOnTop(RemoveFirst(q, j))
    ensures forall x :: x in RemoveFirst(q, j) ==> x in q
  {
    if q != [] && q[0] != j {
      RemoveKeepsOrder(q[1..], j);
      var r := RemoveFirst(q[1..], j);
      forall k | 0 <= k < |r| ensures r[k] < q[0] { assert r[k] in q[1..]; }
    }
  }

  lemma StackedStep(tr: seq<Job>, w: World)
    requires Good(tr, w) && !Done(tr, w) && w.info.Lcfs? && Stacked(w)
    ensures Step(tr, w).info.Lcfs? && Stacked(Step(tr, w))
  {
    var q, c := w.info.jobQueue, w.info.currentJob;
    if CompletionNext(tr, w) && c.Some? {
      RemoveKeepsOrder(q, c.value);
      var q' := RemoveFirst(q, c.value);
      forall i | 0 <= i < |q'| ensures q'[i] < w.arrived { assert q'[i] in q; }
    }
  }

  lemma {:induction false} StackedAfter(tr: seq<Job>, w: World, n: nat)
    requires Inv(tr, w) && w.info.Lcfs? && Stacked(w)
    ensures After(tr, w, n).info.Lcfs? && Stacked(After(tr, w, n))
    decreases n
  {
    hide Inv, Step, Stacked, Load, Good;
    InvIsGood(tr, w);
    if n > 0 && !Done(tr, w) {
      StepAdvances(tr, w);
      StackedStep(tr, w);
      StackedAfter(tr, Step(tr, w), n - 1);
    }
  }

  lemma IdleIsEmpty(tr: seq<Job>, w: World)
    requires Inv(tr, w) && w.info.Lcfs? && w.info.currentJob.None?
    ensures w.info.jobQueue == []
  {
    assert Running(w.info).None? && InSystem(w.info) == multiset{};
    hide Inv;
    assert |multiset(w.info.jobQueue)| == 0;
  }

  lemma StartedStacked(tr: seq<Job>)
    requires Valid(tr)
    ensures Started(tr, LCFS).info.Lcfs? && Stacked(Started(tr, LCFS))
  {
  }

  /** An event starts a job: the one being served is another, or the old one is done. */
  ghost predicate Starts(tr: seq<Job>, w: World, w': World) {
    CompletionNext(tr, w) || Running(w'.info) != Running(w.info)
  }

  /** Whenever last come first served starts a job, at a completion or at an arrival, no job in the system
      arrived after it. */
  lemma LcfsStartsNewest(tr: seq<Job>, n: nat)
    requires Valid(tr)
    ensures var w := After(tr, Started(tr, LCFS), n);
      Good(tr, w) && w.info.Lcfs? && (!Done(tr, w) ==>
        Step(tr, w).info.Lcfs? && (Starts(tr, w, Step(tr, w)) ==> RunsNewest(Step(tr, w))))
  {
    hide After, Started, Inv, Stacked, Good, Complete, Arrive, RunsNewest;
    var w := After(tr, Started(tr, LCFS), n);
    StartedStacked(tr);
    StackedAfter(tr, Started(tr, LCFS), n);
    InvIsGood(tr, w);
    if !Done(tr, w) {
      StackedStep(tr, w);
      if w.info.currentJob.None? { IdleIsEmpty(tr, w); } else { BusyHasJobs(tr, w); }
      if CompletionNext(tr, w) { LcfsCompletesNewest(tr, w); } else { LcfsArrivesNewest(tr, w); }
    }
  }

  lemma BusyHasJobs(tr: seq<Job>, w: World)
    requires Inv(tr, w) && w.info.Lcfs? && w.info.currentJob.Some?
    ensures w.info.jobQueue != []
  {
    assert Running(w.info).value in InSystem(w.info);
    hide Inv;
  }

  /** A job that arrives at rest is alone; otherwise nothing starts. */
  lemma LcfsArrivesNewest(tr: seq<Job>, w: World)
    requires Good(tr, w) && w.arrived < |tr| && w.info.Lcfs? && (w.info.currentJob.None? <==> w.info.jobQueue == [])
    ensures var w' := Arrive(tr, w);
      w'.info.Lcfs? && (w'.info.currentJob != w.info.currentJob ==> RunsNewest(w'))
  {
    if w.info.jobQueue == [] {
      assert [w.arrived] + w.info.jobQueue == [w.arrived];
      assert InSystem(Arrive(tr, w).info) == multiset{w.arrived};
    }
  }

  lemma LcfsCompletesNewest(tr: seq<Job>, w: World)
    requires Good(tr, w) && CompletionNext(tr, w) && w.info.Lcfs? && Stacked(w) && (w.info.currentJob.None? ==> w.info.jobQueue == [])
    ensures var w' := Complete(tr, w);
      w'.info.Lcfs? && RunsNewest(w')
  {
    StackedStep(tr, w);
  }

  // ---------- Shortest job first ----------

  /** Serving the jobs of p one after another from time t. */
  function ServeInOrder(tr: seq<Job>, p: seq<nat>, t: nat): seq<Output>
    requires Named(tr, p)
  {
    if p == [] then [] else [Output(p[0], t + tr[p[0]].size)] + ServeInOrder(tr, p[1..], t + tr[p[0]].size)
  }

  function TimeSum(o: seq<Output>): nat { if o == [] then 0 else o[0].time + TimeSum(o[1..]) }

  /** The cost of an order: the sum of its completion times. */
  function OrderCost(tr: seq<Job>, p: seq<nat>, t: nat): nat
    requires Named(tr, p)
  {
    TimeSum(ServeInOrder(tr, p, t))
  }

  lemma CostUnfolds(tr: seq<Job>, x: nat, p: seq<nat>, t: nat)
    requires x < |tr| && Named(tr, p)
    ensures Named(tr, [x] + p)
    ensures OrderCost(tr, [x] + p, t) == t + tr[x].size + OrderCost(tr, p, t + tr[x].size)
  {
    assert ([x] + p)[1..] == p;
  }

  /** Two neighbours are better served shortest first. */
  lemma SwapFront(tr: seq<Job>, b: nat, x: nat, p: seq<nat>, t: nat)
    requires Named(tr, p) && b < |tr| && x < |tr| && tr[b].size <= tr[x].size
    ensures Named(tr, [x] + p) && Named(tr, [b] + p) && Named(tr, [b] + ([x] + p)) && Named(tr, [x] + ([b] + p))
    ensures OrderCost(tr, [b] + ([x] + p), t) <= OrderCost(tr, [x] + ([b] + p), t)
  {
    CostUnfolds(tr, b, p, t + tr[x].size);
    CostUnfolds(tr, x, p, t + tr[b].size);
    CostUnfolds(tr, b, [x] + p, t);
    CostUnfolds(tr, x, [b] + p, t);
  }

  /** Moving a job that is no longer than those before it to the front costs nothing. */
  lemma {:induction false} MoveToFront(tr: seq<Job>, p: seq<nat>, i: nat, t: nat)
    requires Named(tr, p) && i < |p|
    requires forall k {:trigger p[k]} :: 0 <= k < |p| ==> tr[p[i]].size <= tr[p[k]].size
    ensures Named(tr, p[..i] + p[i + 1..]) && Named(tr, [p[i]] + (p[..i] + p[i + 1..]))
    ensures OrderCost(tr, [p[i]] + (p[..i] + p[i + 1..]), t) <= OrderCost(tr, p, t)
  {
    hide OrderCost;
    var b, q := p[i], p[..i] + p[i + 1..];
    if i == 0 {
      assert [b] + q == p;
    } else {
      var x, rest, u := p[0], p[1..], t + tr[p[0]].size;
      var rest' := rest[..i - 1] + rest[i..];
      MoveToFront(tr, rest, i - 1, u);
      assert p == [x] + rest && q == [x] + rest' && rest[i - 1] == b;
      CostUnfolds(tr, x, rest, t);
      CostUnfolds(tr, x, [b] + rest', t);
      SwapFront(tr, b, x, rest', t);
    }
  }

  /** All jobs of q are seen by the scan. */
  ghost predicate Seen(tr: seq<Job>, q: seq<nat>)
    requires Named(tr, q)
  {
    forall i {:trigger q[i]} :: 0 <= i < |q| ==> Shorter(tr, q[i], UINT64_MAX, UINT64_MAX)
  }

  /** The order in which the repeated scan takes the jobs of q. */
  function ScanOrder(tr: seq<Job>, q: seq<nat>): (p: seq<nat>)
    requires Named(tr, q)
    ensures Named(tr, p)
    decreases |q|
  {
    var b := Best(tr, q);
    if b.None? then []
    else
      RemoveFirstNamed(tr, q, b.value);
      RemoveShrinks(q, b.value);
      [b.value] + ScanOrder(tr, RemoveFirst(q, b.value))
  }

  lemma {:induction false} RemoveShrinks(q: seq<nat>, j: nat)
    requires j in q
    ensures |RemoveFirst(q, j)| == |q| - 1
  {
    if q[0] != j { RemoveShrinks(q[1..], j); }
  }

  lemma RemoveKeepsSeen(tr: seq<Job>, q: seq<nat>, j: nat)
    requires Named(tr, q) && Seen(tr, q)
    ensures Named(tr, RemoveFirst(q, j)) && Seen(tr, RemoveFirst(q, j))
  {
    RemoveFirstNamed(tr, q, j);
    RemoveFirstTakesOne(q, j);
    var q' := RemoveFirst(q, j);
    forall i | 0 <= i < |q'| ensures Shorter(tr, q'[i], UINT64_MAX, UINT64_MAX) {
      assert q'[i] in multiset(q') && q'[i] in multiset(q);
      assert q'[i] in q;
    }
  }

  /** The scan finds a job of q, and no job of q is shorter. */
  lemma BestIsShortest(tr: seq<Job>, q: seq<nat>)
    requires Named(tr, q) && Seen(tr, q) && q != []
    ensures Best(tr, q).Some? && Best(tr, q).value in q
    ensures forall x {:trigger x in q} :: x in q ==> x < |tr| && tr[Best(tr, q).value].size <= tr[x].size
  {
    BestIsLeast(tr, q);
    assert Shorter(tr, q[0], UINT64_MAX, UINT64_MAX);
  }

  lemma SameMembers(p: seq<nat>, q: seq<nat>, x: nat)
    requires multiset(p) == multiset(q)
    ensures x in p <==> x in q
  {
    assert x in multiset(p) <==> x in multiset(q);
  }

  lemma OneLess(p: seq<nat>, q: seq<nat>, i: nat)
    requires multiset(p) == multiset(q) && i < |p|
    ensures multiset(p[..i] + p[i + 1..]) == multiset(RemoveFirst(q, p[i]))
  {
    assert p == p[..i] + [p[i]] + p[i + 1..];
    RemoveFirstTakesOne(q, p[i]);
  }

  /** The job the scan takes out of q stands somewhere in p, and no job of p is shorter. */
  lemma BestIsInAny(tr: seq<Job>, q: seq<nat>, p: seq<nat>) returns (i: nat)
    requires Named(tr, q) && Named(tr, p) && Seen(tr, q) && multiset(p) == multiset(q) && q != []
    ensures Best(tr, q).Some? && i < |p| && p[i] == Best(tr, q).value
    ensures forall k {:trigger p[k]} :: 0 <= k < |p| ==> tr[p[i]].size <= tr[p[k]].size
    ensures multiset(p[..i] + p[i + 1..]) == multiset(RemoveFirst(q, p[i]))
  {
    BestIsShortest(tr, q);
    hide Best, Seen, RemoveFirst;
    var b := Best(tr, q).value;
    SameMembers(p, q, b);
    i :| 0 <= i < |p| && p[i] == b;
    forall k | 0 <= k < |p| ensures tr[b].size <= tr[p[k]].size { SameMembers(p, q, p[k]); }
    OneLess(p, q, i);
  }

  lemma ScanUnfolds(tr: seq<Job>, q: seq<nat>)
    requires Named(tr, q) && Seen(tr, q) && q != []
    ensures Best(tr, q).Some? && Best(tr, q).value in q
    ensures var q' := RemoveFirst(q, Best(tr, q).value);
      Named(tr, q') && Seen(tr, q') && |q'| < |q| && ScanOrder(tr, q) == [Best(tr, q).value] + ScanOrder(tr, q')
  {
    BestIsLeast(tr, q);
    assert Shorter(tr, q[0], UINT64_MAX, UINT64_MAX);
    RemoveKeepsSeen(tr, q, Best(tr, q).value);
    RemoveShrinks(q, Best(tr, q).value);
  }

  /** The repeated scan serves every waiting job once. */
  lemma {:induction false} ScanOrderPermutes(tr: seq<Job>, q: seq<nat>)
    requires Named(tr, q) && Seen(tr, q)
    ensures multiset(ScanOrder(tr, q)) == multiset(q)
    decreases |q|
  {
    if q != [] {
      ScanUnfolds(tr, q);
      var b := Best(tr, q).value;
      hide ScanOrder, Best, Seen;
      RemoveFirstTakesOne(q, b);
      ScanOrderPermutes(tr, RemoveFirst(q, b));
      assert b in multiset(q);
    }
  }

  /** No order of the waiting jobs has a smaller sum of completion times than the repeated scan's. */
  lemma {:induction false} ScanOrderIsOptimal(tr: seq<Job>, q: seq<nat>, p: seq<nat>, t: nat)
    requires Named(tr, q) && Named(tr, p) && Seen(tr, q) && multiset(p) == multiset(q)
    ensures OrderCost(tr, ScanOrder(tr, q), t) <= OrderCost(tr, p, t)
    decreases |q|
  {
    if q == [] {
      assert |multiset(p)| == |p| && p == [];
    } else {
      var i := BestIsInAny(tr, q, p);
      var b := p[i];
      MoveToFront(tr, p, i, t);
      ScanUnfolds(tr, q);
      var p', q' := p[..i] + p[i + 1..], RemoveFirst(q, b);
      hide OrderCost, Best, Seen, ScanOrder;
      ScanOrderIsOptimal(tr, q', p', t + tr[b].size);
      CostUnfolds(tr, b, p', t);
      CostUnfolds(tr, b, ScanOrder(tr, q'), t);
    }
  }

  // ---------- The scan order is what the run does ----------

  /** The jobs that wait in a shortest-job-first state. */
  function WaitingJobs(w: World): seq<nat>
    requires w.info.Sjf? && w.info.currentJob.Some?
  {
    RemoveFirst(w.info.jobQueue, w.info.currentJob.value)
  }

  /** One completion with no arrivals left: the running job is written, and the scan picks the next. */
  lemma DrainStep(tr: seq<Job>, w: World)
    requires Inv(tr, w) && w.info.Sjf? && w.arrived == |tr| && w.due.Some?
    ensures w.info.currentJob.Some? && Named(tr, WaitingJobs(w)) && Seen(tr, WaitingJobs(w))
    ensures var w', q, r, t := Step(tr, w), WaitingJobs(w), w.info.currentJob.value, w.due.value;
      && w'.info.Sjf? && w'.arrived == |tr| && w'.output == w.output + [Output(r, t)]
      && w'.info == Sjf(q, Best(tr, q))
      && (q == [] <==> w'.due.None?)
      && (w'.due.Some? ==> Best(tr, q).Some? && Best(tr, q).value < |tr| && w'.due.value == t + tr[Best(tr, q).value].size)
  {
    hide Once, Earliest, Horizon, GoodOutput, Timely;
    var q, c := w.info.jobQueue, w.info.currentJob.value;
    DrainSees(tr, w);
    BestIsLeast(tr, WaitingJobs(w));
  }

  lemma DrainSees(tr: seq<Job>, w: World)
    requires Inv(tr, w) && w.info.Sjf? && w.due.Some?
    ensures w.info.currentJob.Some? && Named(tr, WaitingJobs(w)) && Seen(tr, WaitingJobs(w))
  {
    var q, c := w.info.jobQueue, w.info.currentJob.value;
    ScanSeesAll(tr, w);
    assert Once(w, c);
    RemoveFirstNamed(tr, q, c);
    RemoveFirstTakesOne(q, c);
    hide Inv, Once;
    var q' := RemoveFirst(q, c);
    forall i | 0 <= i < |q'| ensures Shorter(tr, q'[i], UINT64_MAX, UINT64_MAX) {
      assert q'[i] in multiset(q') && q'[i] in multiset(q) && c !in multiset(q');
      assert q'[i] in q;
    }
  }

  /** No job in the system is smaller than the one being served, nor as small with a lower id. */
  ghost predicate RunsShortest(tr: seq<Job>, w: World) {
    forall j: nat {:trigger InSystem(w.info)[j]} :: InSystem(w.info)[j] > 0 ==>
      && j < |tr| && Running(w.info).Some? && Running(w.info).value < |tr|
      && var r := Running(w.info).value;
         tr[r].size < tr[j].size || (tr[r].size == tr[j].size && tr[r].id <= tr[j].id)
  }

  /** Whenever shortest job first starts a job, it is a shortest one, whether or not jobs are still to arrive. */
  lemma SjfStartsShortest(tr: seq<Job>, n: nat)
    requires Valid(tr)
    ensures var w := After(tr, Started(tr, SJF), n);
      Good(tr, w) && w.info.Sjf? && (!Done(tr, w) ==>
        Step(tr, w).info.Sjf? && (Starts(tr, w, Step(tr, w)) ==> RunsShortest(tr, Step(tr, w))))
  {
    hide After, Started, Inv, Good, Complete, Arrive, RunsShortest;
    var w := After(tr, Started(tr, SJF), n);
    InvIsGood(tr, w);
    if !Done(tr, w) {
      StepKeepsPolicy(tr, w);
      if CompletionNext(tr, w) { SjfCompletesShortest(tr, w); } else { SjfArrivesShortest(tr, w); }
    }
  }

  lemma SjfCompletesShortest(tr: seq<Job>, w: World)
    requires Inv(tr, w) && Good(tr, w) && w.info.Sjf? && CompletionNext(tr, w)
    ensures RunsShortest(tr, Complete(tr, w))
  {
    DrainSees(tr, w);
    var q := WaitingJobs(w);
    BestIsLeast(tr, q);
    hide Inv, Best, RemoveFirst;
    forall j: nat | multiset(q)[j] > 0
      ensures Best(tr, q).Some? && j < |tr| && !Shorter(tr, j, BestTime(tr, Best(tr, q)), BestId(tr, Best(tr, q)))
    {
      assert j in q;
      var i :| 0 <= i < |q| && q[i] == j;
      assert Shorter(tr, q[i], UINT64_MAX, UINT64_MAX);
    }
  }

  lemma SjfArrivesShortest(tr: seq<Job>, w: World)
    requires Inv(tr, w) && Good(tr, w) && w.arrived < |tr| && w.info.Sjf?
    ensures Running(Arrive(tr, w).info) != Running(w.info) ==> RunsShortest(tr, Arrive(tr, w))
  {
    var q := w.info.jobQueue;
    if w.info.currentJob.None? {
      assert InSystem(w.info) == multiset{};
      hide Inv;
      assert |multiset(q)| == 0;
      assert [w.arrived] + q == [w.arrived];
    }
  }

  lemma RunUnfolds(tr: seq<Job>, w: World)
    requires Inv(tr, w) && !Done(tr, w)
    ensures Good(tr, w) && Inv(tr, Step(tr, w)) && RunToEnd(tr, w) == RunToEnd(tr, Step(tr, w))
    ensures Load(tr, Step(tr, w)) < Load(tr, w)
  {
    StepAdvances(tr, w);
    hide Inv, Step, Load;
  }

  /** With no arrivals left, the run writes the running job and then the waiting ones in scan order. */
  lemma {:induction false} DrainFollowsScan(tr: seq<Job>, w: World)
    requires Inv(tr, w) && w.info.Sjf? && w.arrived == |tr| && w.due.Some?
    ensures w.info.currentJob.Some? && Named(tr, WaitingJobs(w)) && Seen(tr, WaitingJobs(w))
    ensures RunToEnd(tr, w).output ==
      w.output + [Output(w.info.currentJob.value, w.due.value)] + ServeInOrder(tr, ScanOrder(tr, WaitingJobs(w)), w.due.value)
    decreases Load(tr, w)
  {
    hide Inv, Step, Load, Good, Best, Seen, RunToEnd, RemoveFirst, ScanOrder;
    RunUnfolds(tr, w);
    DrainStep(tr, w);
    var w', q, t := Step(tr, w), WaitingJobs(w), w.due.value;
    if w'.due.Some? {
      var b := Best(tr, q).value;
      ScanUnfolds(tr, q);
      DrainFollowsScan(tr, w');
      assert ScanOrder(tr, q)[1..] == ScanOrder(tr, RemoveFirst(q, b));
    } else {
      RunIsOver(tr, w');
      ScanOfNone(tr);
    }
  }

  lemma RunIsOver(tr: seq<Job>, w: World)
    requires Inv(tr, w) && Done(tr, w)
    ensures RunToEnd(tr, w) == w
  {
    hide Inv, Load;
  }

  lemma ScanOfNone(tr: seq<Job>)
    ensures ScanOrder(tr, []) == []
  {
  }

  /** Once no arrivals remain, shortest job first finishes the waiting jobs in an order whose sum of completion
      times no other order of them beats. */
  lemma SjfIsOptimal(tr: seq<Job>, w: World, p: seq<nat>)
    requires Inv(tr, w) && w.info.Sjf? && w.arrived == |tr| && w.due.Some? && w.info.currentJob.Some?
    requires Named(tr, p) && multiset(p) == multiset(WaitingJobs(w))
    ensures |w.output| < |RunToEnd(tr, w).output|
    ensures TimeSum(RunToEnd(tr, w).output[|w.output| + 1..]) <= OrderCost(tr, p, w.due.value)
  {
    DrainFollowsScan(tr, w);
    ScanOrderIsOptimal(tr, WaitingJobs(w), p, w.due.value);
    hide Inv, RunToEnd, ScanOrder, ServeInOrder, Seen;
    assert RunToEnd(tr, w).output[|w.output| + 1..] == ServeInOrder(tr, ScanOrder(tr, WaitingJobs(w)), w.due.value);
  }
}

/** Without new calls and spurious wakeups every run on buffered channels ends, and so reaches a stuck state, in
    which whoever is left waits for a reason. */
module ChannelEnds {
  import opened ChannelSystem
  import opened ChannelProofs
  import opened SelectProofs

  // ---------- Sums over the threads ----------

  ghost function Total(m: map<Tid, nat>): nat
    decreases |m|
  {
    if exists t :: t in m then var t :| t in m; m[t] + Total(m - {t}) else 0
  }

  lemma {:induction false} TotalTakes(m: map<Tid, nat>, t: Tid)
    requires t in m
    ensures Total(m) == m[t] + Total(m - {t})
    decreases |m|
  {
    var u :| u in m && Total(m) == m[u] + Total(m - {u});
    if u != t {
      TotalTakes(m - {u}, t);
      TotalTakes(m - {t}, u);
      assert m - {u} - {t} == m - {t} - {u};
    }
  }

  lemma TotalUpdate(m: map<Tid, nat>, m': map<Tid, nat>, t: Tid)
    requires t in m && m'.Keys == m.Keys && forall u {:trigger m'[u]} :: u in m && u != t ==> m'[u] == m[u]
    ensures Total(m') == Total(m) - m[t] + m'[t]
  {
    TotalTakes(m, t);
    TotalTakes(m', t);
    var r, r' := m - {t}, m' - {t};
    forall u ensures u in r' <==> u in r { assert u in m' <==> u in m; }
    forall u | u in r ensures r'[u] == r[u] { assert m'[u] == m[u]; }
    assert r' == r;
  }

  // ---------- The measure ----------

  /** Walks over a selector list still to begin, and signals and broadcasts still to give. */
  function Notices(p: Pc): nat {
    match p
    case Entering(Close(_)) => 4
    case Entering(_) => 2
    case Asleep(_, _, _) => 2
    case Woken(_, _, _) => 2
    case ToPost(_, d, a) => if a != Closing then 2 else if d == Recv then 4 else 3
    case Posting(_, d, _, a) => if a != Closing then 1 else if d == Recv then 3 else 2
    case ToSignal(_, _, _) => 1
    case ToBroadcast(_, d) => if d == Recv then 2 else 1
    case Registering(_, _) => 2
    case Scanning(_, _) => 2
    case SemWait(_) => 2
    case _ => 0
  }

  /** Posts still to make in the walk at hand, each counting two. */
  function Posts(p: Pc): nat { if p.Posting? then 2 * |p.todo| else 0 }

  function Left(n: nat, i: nat): nat { if i <= n then n - i else 0 }

  /** What a thread can do by itself before it waits, notifies or is done. */
  function Local(p: Pc): nat {
    match p
    case Entering(Select(es)) => 2 * |es| + 3
    case Entering(_) => 1
    case Woken(_, _, _) => 1
    case Posting(_, _, _, _) => 1
    case Registering(es, i) => Left(|es|, i) + |es| + 2
    case Scanning(es, i) => Left(|es|, i) + 1
    case CleaningUp(es, i, _) => Left(|es|, i) + 1
    case _ => 0
  }

  function NoticeMap(s: System): map<Tid, nat> { map t | t in s.threads :: Notices(s.threads[t]) }
  function PostMap(s: System): map<Tid, nat> { map t | t in s.threads :: Posts(s.threads[t]) }
  function LocalMap(s: System): map<Tid, nat> { map t | t in s.threads :: Local(s.threads[t]) }

  ghost function AllNotices(s: System): nat { Total(NoticeMap(s)) }

  /** Posts to make, and semaphore units to take. */
  ghost function AllPosts(s: System): nat { Total(PostMap(s)) + Total(s.sems) }

  ghost function AllLocal(s: System): nat { Total(LocalMap(s)) }

  ghost predicate Lower(s': System, s: System) {
    || AllNotices(s') < AllNotices(s)
    || (AllNotices(s') == AllNotices(s) && AllPosts(s') < AllPosts(s))
    || (AllNotices(s') == AllNotices(s) && AllPosts(s') == AllPosts(s) && AllLocal(s') < AllLocal(s))
  }

  // ---------- One step ----------

  ghost predicate SemsFall(s: System, p: Pc, e: Effect) {
    e.sems.Keys == s.sems.Keys && Posts(e.pc) + Total(e.sems) < Posts(p) + Total(s.sems)
  }

  /** What thread t's own step does: fewer notices; or as many, nobody woken, and fewer posts and units; or as
      many of both, and less to do by itself. */
  ghost predicate Advances(s: System, p: Pc, e: Effect) {
    || Notices(e.pc) < Notices(p)
    || (Notices(e.pc) == Notices(p) && e.wake == {} && e.sems.Keys == s.sems.Keys &&
        (|| Posts(e.pc) + Total(e.sems) < Posts(p) + Total(s.sems)
         || (Posts(e.pc) + Total(e.sems) == Posts(p) + Total(s.sems) && Local(e.pc) < Local(p))))
  }

  lemma AttemptAdvances(s: System, p: Pc, c: int, d: Dir, v: Value, a: After, o: Pc)
    requires GoodChan(s, c) && a != Closing && Notices(p) == 2 && Posts(p) == 0 && Local(p) > 0
    requires Posts(o) == 0 && (Notices(o) < 2 || (Notices(o) == 2 && Local(o) < Local(p)))
    ensures Advances(s, p, Attempt(s, c, d, v, a, o))
  {
  }

  lemma EnterAdvances(s: System, t: Tid, call: ChannelSystem.Call)
    requires GoodCall(s, call) && t in s.sems
    ensures Advances(s, Entering(call), Enter(s, t, call))
  {
    hide Attempt;
    match call
    case Blocking(c, d, v) => AttemptAdvances(s, Entering(call), c, d, v, Return(v), Asleep(c, d, v));
    case NonBlocking(c, d, v) => AttemptAdvances(s, Entering(call), c, d, v, Return(v), Done(WouldBlock));
    case Close(_) =>
    case Select(es) => TotalUpdate(s.sems, s.sems[t := 0], t);
  }

  lemma PostAdvances(s: System, c: int, d: Dir, todo: seq<Tid>, a: After)
    requires GoodChan(s, c)
    ensures Advances(s, Posting(c, d, todo, a), Post(s, c, d, todo, a))
  {
    if todo != [] && todo[0] in s.sems {
      TotalUpdate(s.sems, s.sems[todo[0] := s.sems[todo[0]] + 1], todo[0]);
    }
  }

  lemma GoAdvances(s: System, t: Tid, p: Pc)
    requires t in s.threads && p == s.threads[t] && GoodPc(s, p) && CanGo(s, t) && t in s.sems
    ensures Advances(s, p, GoEffect(s, t, p))
  {
    hide Attempt, Enter, Post;
    match p
    case Entering(call) => EnterAdvances(s, t, call);
    case Woken(c, d, v) =>
      AttemptAdvances(s, p, c, d, v, Return(v), if s.chans[c].closed then Done(ClosedError) else Asleep(c, d, v));
    case Posting(c, d, todo, a) => PostAdvances(s, c, d, todo, a);
    case Scanning(es, i) =>
      if i < |es| { AttemptAdvances(s, p, es[i].chan, es[i].dir, es[i].value, Finish(es, i, es[i].value), Scanning(es, i + 1)); }
    case SemWait(es) => TotalUpdate(s.sems, s.sems[t := s.sems[t] - 1], t);
    case _ =>
  }

  /** Waking a sleeper changes no other thread's notices, posts or work. */
  lemma OthersSame(s: System, t: Tid, e: Effect)
    requires t in s.threads
    ensures var s' := Apply(s, t, e);
      && NoticeMap(s') == NoticeMap(s)[t := Notices(e.pc)] && PostMap(s') == PostMap(s)[t := Posts(e.pc)]
      && (e.wake == {} ==> LocalMap(s') == LocalMap(s)[t := Local(e.pc)])
  {
  }

  /** Every step but a new call or a spurious wakeup lowers the measure. */
  lemma StepDescends(s: System, st: Step)
    requires Typed(s) && Enabled(s, st) && !st.Begin? && !st.Spurious?
    ensures Lower(Next(s, st), s)
  {
    var s', e, t, p := Next(s, st), StepEffect(s, st), st.t, s.threads[st.t];
    assert GoodPc(s, p);
    StepAdvances(s, st);
    OthersSame(s, t, e);
    TotalUpdate(NoticeMap(s), NoticeMap(s'), t);
    TotalUpdate(PostMap(s), PostMap(s'), t);
    hide StepEffect, Enabled, Notices, Posts, Local;
    if e.wake == {} { TotalUpdate(LocalMap(s), LocalMap(s'), t); }
  }

  lemma StepAdvances(s: System, st: Step)
    requires Typed(s) && Enabled(s, st) && !st.Begin? && !st.Spurious?
    ensures Advances(s, s.threads[st.t], StepEffect(s, st))
  {
    assert GoodPc(s, s.threads[st.t]);
    if st.Go? {
      hide GoEffect;
      GoAdvances(s, st.t, s.threads[st.t]);
    }
  }

  // ---------- Stuck states are reached ----------

  lemma OneMore(states: seq<System>, steps: seq<Step>, st: Step)
    requires IsRun(states, steps) && |states| == |steps| + 1 && Typed(states[|steps|]) && Enabled(states[|steps|], st)
    ensures IsRun(states + [Next(states[|steps|], st)], steps + [st])
  {
    var more, moreSteps := states + [Next(states[|steps|], st)], steps + [st];
    hide Typed, Enabled, Next;
    assert more[..|steps| + 1] == states && moreSteps[..|steps|] == steps && |moreSteps| - 1 == |steps|;
  }

  /** What a run that is not stuck can do next. */
  lemma GoOn(states: seq<System>, steps: seq<Step>) returns (st: Step, s': System)
    requires IsRun(states, steps) && |states| == |steps| + 1 && !Stuck(states[|steps|])
    ensures !st.Begin? && !st.Spurious? && Lower(s', states[|steps|]) && IsRun(states + [s'], steps + [st])
  {
    RunInv(states, steps);
    var s := states[|steps|];
    st :| (st.Go? || st.Signal?) && Enabled(s, st);
    assert Typed(s);
    s' := Next(s, st);
    hide IsRun, Enabled, Typed, Lower, Inv;
    StepDescends(s, st);
    OneMore(states, steps, st);
  }

  lemma RunSized(states: seq<System>, steps: seq<Step>)
    requires IsRun(states, steps)
    ensures |states| == |steps| + 1
  {
  }

  /** From any state of a run, the steps of the threads at hand lead to a stuck state, whichever are taken. */
  lemma {:induction false} EveryRunGetsStuck(states: seq<System>, steps: seq<Step>)
      returns (states': seq<System>, steps': seq<Step>)
    requires IsRun(states, steps)
    ensures IsRun(states', steps') && |states'| == |steps'| + 1 && states <= states' && steps <= steps'
    ensures forall k {:trigger steps'[k]} :: |steps| <= k < |steps'| ==> !steps'[k].Begin? && !steps'[k].Spurious?
    ensures Inv(states'[|steps'|]) && Stuck(states'[|steps'|])
    decreases AllNotices(states[|steps|]), AllPosts(states[|steps|]), AllLocal(states[|steps|])
  {
    hide IsRun, Stuck, Inv, Next, Enabled, Typed, AllNotices, AllPosts, AllLocal;
    RunSized(states, steps);
    if Stuck(states[|steps|]) {
      RunInv(states, steps);
      states', steps' := states, steps;
    } else {
      var st, s' := GoOn(states, steps);
      states', steps' := EveryRunGetsStuck(states + [s'], steps + [st]);
    }
  }
}

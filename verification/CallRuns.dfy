/** Over whole runs: every value received is one that some call sent, received once, and every status is honest. */
module CallRuns {
  import opened Basics
  import opened ChannelSystem
  import opened ChannelProofs
  import opened SelectProofs
  import opened CallProofs
  import opened CallRecords

  // ---------- Moves have their place in the histories ----------

  ghost predicate Placed(s: System, m: Move) {
    && GoodChan(s, m.chan) && m.at < |History(s.chans[m.chan], m.dir)|
    && History(s.chans[m.chan], m.dir)[m.at] == m.value
  }

  predicate SamePlace(m: Move, m': Move) { m.chan == m'.chan && m.dir == m'.dir && m.at == m'.at }

  predicate Logs(x: Watched, t: Tid, m: Move) { t in x.logs && m in x.logs[t].moves }

  /** Every logged move stands in its channel's history, and no two threads log the same place. */
  ghost predicate MovesStand(x: Watched) {
    && (forall t, m {:trigger Logs(x, t, m)} :: Logs(x, t, m) ==> Placed(x.sys, m))
    && (forall t, m, u, m' {:trigger Logs(x, t, m), Logs(x, u, m')} ::
          Logs(x, t, m) && Logs(x, u, m') && SamePlace(m, m') ==> t == u)
  }

  /** What a step adds to the log of its thread: nothing, or a value at the end of a history. */
  lemma NewMoves(s: System, st: Step, m: Move)
    requires Inv(s) && Enabled(s, st) && |Next(s, st).chans| == |s.chans|
    requires m in SeenUpTo(s.chans, Next(s, st).chans, |s.chans|)
    ensures Placed(Next(s, st), m) && GoodChan(s, m.chan) && m.at == |History(s.chans[m.chan], m.dir)|
  {
    var s', p := Next(s, st), s.threads[st.t];
    StepSeen(s, st);
    AttemptGood(s, st);
    var a := Attempted(p).value;
    StepTraffic(s, st, a.chan);
    hide Inv, Enabled, Next, StepEffect, SeenUpTo, Transferred, Seen, Attempted, GoesAhead, Room;
    var x, at := TransferSeen(a.chan, s.chans[a.chan], s'.chans[a.chan], a.dir, a.value, s'.threads[st.t]);
  }

  lemma PlacedStays(s: System, st: Step, m: Move)
    requires Inv(s) && Enabled(s, st) && Placed(s, m)
    ensures Placed(Next(s, st), m)
  {
    AllFifo(s);
    StepFifo(s, st, m.chan);
    hide Inv, Enabled, Next, Fifo;
  }

  lemma LogsAfter(x: Watched, st: Step, t: Tid, m: Move)
    requires Inv(x.sys) && Enabled(x.sys, st) && Logs(WatchedStep(x, st), t, m)
    ensures |Next(x.sys, st).chans| == |x.sys.chans|
    ensures Logs(x, t, m) || (t == st.t && m in SeenUpTo(x.sys.chans, Next(x.sys, st).chans, |x.sys.chans|))
  {
    KeepsChannels(x.sys, st);
    hide Inv, Enabled, Next, SeenUpTo, Shuts, Attempted;
  }

  lemma StepMovesStand(x: Watched, st: Step)
    requires Inv(x.sys) && Enabled(x.sys, st) && MovesStand(x)
    ensures MovesStand(WatchedStep(x, st))
  {
    var x' := WatchedStep(x, st);
    assert x'.sys == Next(x.sys, st);
    hide Inv, Enabled, Next, WatchedStep, SeenUpTo;
    forall t, m {:trigger Logs(x', t, m)} | Logs(x', t, m)
      ensures Placed(x'.sys, m)
    {
      LogsAfter(x, st, t, m);
      if Logs(x, t, m) { PlacedStays(x.sys, st, m); } else { NewMoves(x.sys, st, m); }
    }
    forall t, m, u, m' {:trigger Logs(x', t, m), Logs(x', u, m')} | Logs(x', t, m) && Logs(x', u, m') && SamePlace(m, m')
      ensures t == u
    {
      LogsAfter(x, st, t, m);
      LogsAfter(x, st, u, m');
      if !Logs(x, t, m) { NewMoves(x.sys, st, m); }
      if !Logs(x, u, m') { NewMoves(x.sys, st, m'); }
    }
  }

  // ---------- Whole runs ----------

  /** The records at the end of a run. */
  ghost function WatchedRun(states: seq<System>, steps: seq<Step>): (x: Watched)
    requires IsRun(states, steps)
    ensures |states| == |steps| + 1 && x.sys == states[|steps|]
    ensures Inv(x.sys) && LogsAgree(x) && MovesStand(x)
    decreases |steps|
  {
    hide Inv, LogsAgree, MovesStand, Typed, Enabled, Next;
    if steps == [] then
      var x := Watched(states[0], map[]);
      StartWatched(x);
      x
    else
      var k := |steps| - 1;
      var x := WatchedRun(states[..k + 1], steps[..k]);
      StepAgrees(x, steps[k]);
      StepMovesStand(x, steps[k]);
      SysAfter(x, steps[k]);
      WatchedStep(x, steps[k])
  }

  lemma StartWatched(x: Watched)
    requires CallRecords.Start(x)
    ensures Inv(x.sys) && LogsAgree(x) && MovesStand(x)
  {
    StartAgrees(x);
  }

  lemma SysAfter(x: Watched, st: Step)
    requires Inv(x.sys) && Enabled(x.sys, st)
    ensures WatchedStep(x, st).sys == Next(x.sys, st)
  {
  }

  /** In every run: a thread that is done with a status did what the status says, as seen on the channels, and what
      it moved has its own place in the channel's history. */
  lemma StatusIsHonest(states: seq<System>, steps: seq<Step>, t: Tid)
    requires IsRun(states, steps) && t in WatchedRun(states, steps).sys.threads && WatchedRun(states, steps).sys.threads[t].Done?
    ensures var x := WatchedRun(states, steps);
      t in x.logs && Honest(x.sys, x.sys.threads[t].status, x.logs[t])
  {
    hide IsRun, WatchedRun, Inv, MovesStand, Honest;
    DoneIsHonest(WatchedRun(states, steps), t);
  }

  lemma DoneIsHonest(x: Watched, t: Tid)
    requires LogsAgree(x) && t in x.sys.threads && x.sys.threads[t].Done?
    ensures t in x.logs && Honest(x.sys, x.sys.threads[t].status, x.logs[t])
  {
    assert !x.sys.threads[t].Idle?;
    hide Honest;
  }

  /** Step j of the run is an attempt to send v on channel c, with k values sent there before. */
  ghost predicate Sends(states: seq<System>, steps: seq<Step>, j: int, c: int, k: int, v: Value) {
    && 0 <= j < |steps| < |states| && steps[j].Go? && steps[j].t in states[j].threads
    && Attempted(states[j].threads[steps[j].t]) == Some(Entry(c, Send, v))
    && GoodChan(states[j], c) && |states[j].chans[c].sent| == k
  }

  /** Every value in a channel's history was put there by a call that was asked to send it. */
  lemma {:induction false} SentByACall(states: seq<System>, steps: seq<Step>, c: int, k: nat) returns (j: int)
    requires IsRun(states, steps) && |states| == |steps| + 1 && GoodChan(states[|steps|], c) && k < |states[|steps|].chans[c].sent|
    ensures Sends(states, steps, j, c, k, states[|steps|].chans[c].sent[k])
    decreases |steps|
  {
    if steps == [] {
      j := 0;
    } else {
      var n := |steps| - 1;
      var s, st := states[n], steps[n];
      RunInv(states[..n + 1], steps[..n]);
      assert states[..n + 1][n] == s && Inv(s);
      AttemptGood(s, st);
      StepTraffic(s, st, c);
      assert states[|steps|] == Next(s, st);
      hide Inv, Typed, Enabled, Next, StepEffect, Attempted, Room, GoesAhead;
      if k < |s.chans[c].sent| {
        j := SentByACall(states[..n + 1], steps[..n], c, k);
      } else {
        j := n;
      }
    }
  }

  /** In every run, what a successful receive hands back is what one call sent on that channel, received by no
      other thread. */
  lemma ReceivedWasSent(states: seq<System>, steps: seq<Step>, t: Tid) returns (j: int)
    requires IsRun(states, steps)
    requires var x := WatchedRun(states, steps);
      && t in x.sys.threads && x.sys.threads[t].Done? && x.sys.threads[t].status.Success? && x.sys.threads[t].status.result.Some?
      && t in x.logs && var r := x.sys.threads[t].status.result.value;
         Asked(x.logs[t].call, r.index).Some? && Asked(x.logs[t].call, r.index).value.dir == Recv
    ensures var x := WatchedRun(states, steps);
      var r := x.sys.threads[t].status.result.value;
      && |x.logs[t].moves| == 1
      && var m := x.logs[t].moves[0];
         && m.chan == Asked(x.logs[t].call, r.index).value.chan && m.dir == Recv
         && Sends(states, steps, j, m.chan, m.at, r.value)
         && forall u, m' {:trigger Logs(x, u, m')} :: Logs(x, u, m') && SamePlace(m, m') ==> u == t
  {
    var x := WatchedRun(states, steps);
    StatusIsHonest(states, steps, t);
    var m := x.logs[t].moves[0];
    assert Logs(x, t, m);
    AllFifo(x.sys);
    hide Inv, LogsAgree, IsRun, WatchedRun;
    assert x.sys.chans[m.chan].sent[m.at] == m.value;
    j := SentByACall(states, steps, m.chan, m.at);
  }
}

/** The routers of the stress program: every router broadcasts its distance vector to its neighbours and
    relaxes what it receives, over channels of one capacity, 0 included. Threads interleave at channel
    operations; a message is a snapshot. */
module DistanceVector {
  import opened Walks

  type Vector = seq<Dist>

  /** `curr` is what is being broadcast, `next` what has been learned since; `pending` are the neighbours
      that `curr` still has to be sent to. */
  datatype Router = Router(curr: Vector, next: Vector, pending: set<int>, changed: bool)

  datatype Message = Message(src: int, dist: Vector)

  datatype Net = Net(routers: seq<Router>, channels: seq<seq<Message>>, capacity: nat)

  /** On an unbuffered channel a send and its receive are one rendezvous. */
  datatype Step = Send(r: int, i: int) | Receive(r: int) | Handoff(r: int, i: int)

  function Neighbours(T: Matrix, r: int): set<int>
    requires 0 <= r < |T|
  {
    set i | 0 <= i < |T[r]| && i != r && T[r][i] != INF
  }

  /** The vector after relaxing through a neighbour at distance d that offers v. */
  function Relax(x: Vector, d: Dist, v: Vector): (y: Vector)
    ensures |y| == |x|
  {
    seq(|x|, j requires 0 <= j < |x| => if j < |v| && Add32(d, v[j]) < x[j] then Add32(d, v[j]) else x[j])
  }

  /** Once everything is sent, news starts another broadcast. */
  function Settle(T: Matrix, r: int, x: Router): Router
    requires 0 <= r < |T|
  {
    if x.pending == {} && x.changed then Router(x.next, x.next, Neighbours(T, r), false) else x
  }

  function AfterSend(T: Matrix, r: int, x: Router, i: int): Router
    requires 0 <= r < |T|
  {
    Settle(T, r, x.(pending := x.pending - {i}))
  }

  function AfterReceive(T: Matrix, r: int, x: Router, m: Message): Router
    requires 0 <= r < |T|
  {
    var y := if 0 <= m.src < |T[r]| then Relax(x.next, T[r][m.src], m.dist) else x.next;
    Settle(T, r, x.(next := y, changed := x.changed || y != x.next))
  }

  ghost predicate Start(T: Matrix, s: Net) {
    && |s.routers| == |s.channels| == |T|
    && (forall r :: 0 <= r < |T| ==> s.routers[r] == Router(T[r], T[r], Neighbours(T, r), false) && s.channels[r] == [])
  }

  /** Router r has something to send to i, or something to receive. */
  ghost predicate Possible(s: Net, st: Step) {
    match st
    case Send(r, i) => 0 <= r < |s.routers| && 0 <= i < |s.channels| && i in s.routers[r].pending
    case Receive(r) => 0 <= r < |s.routers| && r < |s.channels| && s.channels[r] != []
    case Handoff(r, i) =>
      0 <= r < |s.routers| && 0 <= i < |s.channels| && i < |s.routers| && i in s.routers[r].pending && s.channels[i] == []
  }

  /** And the channel lets it: there is room, or the two sides meet. */
  ghost predicate Enabled(s: Net, st: Step) {
    Possible(s, st) && match st
    case Send(_, i) => |s.channels[i]| < s.capacity
    case Receive(_) => true
    case Handoff(_, _) => s.capacity == 0
  }

  ghost function Sent(T: Matrix, s: Net, r: int, i: int): Net
    requires |s.routers| == |s.channels| == |T| && Possible(s, Send(r, i))
  {
    s.(routers := s.routers[r := AfterSend(T, r, s.routers[r], i)],
       channels := s.channels[i := s.channels[i] + [Message(r, s.routers[r].curr)]])
  }

  ghost function Received(T: Matrix, s: Net, r: int): Net
    requires |s.routers| == |s.channels| == |T| && Possible(s, Receive(r))
  {
    s.(routers := s.routers[r := AfterReceive(T, r, s.routers[r], s.channels[r][0])],
       channels := s.channels[r := s.channels[r][1..]])
  }

  /** The state after one step. */
  ghost function Next(T: Matrix, s: Net, st: Step): Net
    requires |s.routers| == |s.channels| == |T| && Possible(s, st)
  {
    match st
    case Send(r, i) => Sent(T, s, r, i)
    case Receive(r) => Received(T, s, r)
    case Handoff(r, i) => Received(T, Sent(T, s, r, i), i)
  }

  // ---------- The invariant ----------

  /** Links are finite in both directions or in neither. */
  ghost predicate Mutual(T: Matrix) {
    forall i, j :: 0 <= i < |T| && 0 <= j < |T| && j < |T[i]| && i < |T[j]| ==> (T[i][j] < INF <==> T[j][i] < INF)
  }

  ghost predicate EntryOk(T: Matrix, r: int, j: int, d: int) {
    d <= INF && Reached(T, r, j, d)
  }

  /** Every finite entry of v is the cost of some walk from r. */
  ghost predicate VectorOk(T: Matrix, r: int, v: Vector) {
    |v| == |T| && forall j {:trigger v[j]} :: 0 <= j < |v| ==> EntryOk(T, r, j, v[j])
  }

  ghost predicate Below(v: Vector, u: Vector) {
    |v| == |u| && forall j {:trigger v[j]} {:trigger u[j]} :: 0 <= j < |v| ==> v[j] <= u[j]
  }

  ghost predicate RouterOk(T: Matrix, s: Net, r: int)
    requires 0 <= r < |T| && r < |s.routers|
  {
    var x := s.routers[r];
    && VectorOk(T, r, x.curr) && VectorOk(T, r, x.next)
    && Below(x.next, x.curr) && Below(x.curr, T[r])
    && x.pending <= Neighbours(T, r) && (x.changed <==> x.next != x.curr) && (x.pending == {} ==> !x.changed)
  }

  ghost predicate MessageOk(T: Matrix, r: int, m: Message)
    requires 0 <= r < |T|
  {
    0 <= m.src < |T| && m.src < |T[r]| && T[r][m.src] < INF && VectorOk(T, m.src, m.dist)
  }

  ghost predicate ChannelOk(T: Matrix, s: Net, r: int)
    requires 0 <= r < |T| && r < |s.channels|
  {
    forall k {:trigger s.channels[r][k]} :: 0 <= k < |s.channels[r]| ==> MessageOk(T, r, s.channels[r][k])
  }

  /** Router i has taken in what r broadcasts. */
  ghost predicate Applied(T: Matrix, s: Net, r: int, i: int)
    requires 0 <= r < |s.routers| && 0 <= i < |s.routers|
  {
    && i < |T| && r < |T[i]| && |s.routers[i].next| == |s.routers[r].curr|
    && (forall j {:trigger s.routers[i].next[j]} :: 0 <= j < |s.routers[i].next| ==>
          s.routers[i].next[j] <= T[i][r] as int + s.routers[r].curr[j] as int)
  }

  /** What r broadcasts is still to be sent to its neighbour i, on its way, or taken in. */
  ghost predicate Covered(T: Matrix, s: Net, r: int, i: int)
    requires 0 <= r < |s.routers| && 0 <= i < |s.routers| && i < |s.channels|
  {
    i in s.routers[r].pending || Message(r, s.routers[r].curr) in s.channels[i] || Applied(T, s, r, i)
  }

  ghost predicate Inv(T: Matrix, s: Net) {
    && Capped(T, |T|) && Mutual(T) && |s.routers| == |s.channels| == |T|
    && (forall r {:trigger RouterOk(T, s, r)} :: 0 <= r < |T| ==> RouterOk(T, s, r))
    && (forall r {:trigger ChannelOk(T, s, r)} :: 0 <= r < |T| ==> ChannelOk(T, s, r))
    && (forall r, i {:trigger Covered(T, s, r, i)} :: 0 <= r < |T| && i in Neighbours(T, r) ==> Covered(T, s, r, i))
  }

  /** No channel holds more than it can. */
  ghost predicate Bounded(s: Net) {
    forall r {:trigger s.channels[r]} :: 0 <= r < |s.channels| ==> |s.channels[r]| <= s.capacity
  }

  lemma StartInv(T: Matrix, s: Net)
    requires Capped(T, |T|) && Mutual(T) && Start(T, s)
    ensures Inv(T, s) && Bounded(s)
  {
    forall r | 0 <= r < |T| ensures RouterOk(T, s, r) {
      forall j | 0 <= j < |T| ensures EntryOk(T, r, j, T[r][j]) { LinkReached(T, r, j); }
    }
  }

  lemma LinkReached(T: Matrix, r: int, j: int)
    requires Capped(T, |T|) && 0 <= r < |T| && 0 <= j < |T|
    ensures EntryOk(T, r, j, T[r][j])
  {
    if T[r][j] != INF {
      var w := [r, j];
      assert Cost(T, w) == Link(T, w[0], w[1]) + Cost(T, w[1..]);
      assert Walk(T, w, r, j) && Cost(T, w) == T[r][j];
    }
  }

  /** Relaxing keeps every entry the cost of a walk, and the sums do not wrap. */
  lemma RelaxOk(T: Matrix, r: int, k: int, x: Vector, v: Vector)
    requires Capped(T, |T|) && 0 <= r < |T| && 0 <= k < |T| && T[r][k] < INF
    requires VectorOk(T, r, x) && VectorOk(T, k, v)
    ensures var y := Relax(x, T[r][k], v);
      VectorOk(T, r, y) && Below(y, x) && forall j :: 0 <= j < |y| ==> y[j] <= T[r][k] as int + v[j] as int
  {
    var y := Relax(x, T[r][k], v);
    forall j {:trigger y[j]} | 0 <= j < |y| ensures EntryOk(T, r, j, y[j]) && y[j] <= x[j] && y[j] <= T[r][k] as int + v[j] as int {
      assert EntryOk(T, r, j, x[j]) && EntryOk(T, k, j, v[j]);
      if y[j] != x[j] { ExtendReached(T, r, k, j, v[j]); }
    }
  }

  lemma ExtendReached(T: Matrix, r: int, k: int, j: int, d: int)
    requires Capped(T, |T|) && 0 <= r < |T| && 0 <= k < |T| && T[r][k] < INF && d < INF && Reached(T, k, j, d)
    ensures Reached(T, r, j, T[r][k] + d)
  {
    var w :| Walk(T, w, k, j) && Cost(T, w) == d;
    WalkCons(T, r, w, k, j);
    assert Walk(T, [r] + w, r, j) && Cost(T, [r] + w) == T[r][k] + d;
  }

  lemma SettleKeeps(T: Matrix, r: int, x: Router)
    requires Capped(T, |T|) && 0 <= r < |T|
    requires VectorOk(T, r, x.curr) && VectorOk(T, r, x.next) && Below(x.next, x.curr) && Below(x.curr, T[r])
    requires x.pending <= Neighbours(T, r) && (x.changed <==> x.next != x.curr)
    ensures var y := Settle(T, r, x);
      && VectorOk(T, r, y.curr) && VectorOk(T, r, y.next) && Below(y.next, y.curr) && Below(y.curr, T[r])
      && y.pending <= Neighbours(T, r) && (y.changed <==> y.next != y.curr) && (y.pending == {} ==> !y.changed)
      && y.next == x.next && Below(y.curr, x.curr) && (y.curr != x.curr ==> y.pending == Neighbours(T, r))
      && (y.curr == x.curr ==> y.pending == x.pending)
  {
  }

  /** What sending does to router r. */
  lemma SendFacts(T: Matrix, s: Net, r: int, i: int)
    requires Inv(T, s) && Possible(s, Send(r, i))
    ensures var s' := Next(T, s, Send(r, i));
      var x, x' := s.routers[r], s'.routers[r];
      && |s'.routers| == |s'.channels| == |T| && RouterOk(T, s, r) && RouterOk(T, s', r)
      && x'.next == x.next && Below(x'.curr, x.curr) && (x'.curr != x.curr ==> x'.pending == Neighbours(T, r))
      && (x'.curr == x.curr ==> x'.pending == x.pending - {i})
      && i in Neighbours(T, r)
  {
    var x := s.routers[r];
    assert RouterOk(T, s, r);
    SettleKeeps(T, r, x.(pending := x.pending - {i}));
  }

  lemma SendCovers(T: Matrix, s: Net, r: int, i: int, q: int, k: int)
    requires Inv(T, s) && Possible(s, Send(r, i)) && 0 <= q < |T| && k in Neighbours(T, q)
    ensures Covered(T, Next(T, s, Send(r, i)), q, k)
  {
    var s', x := Next(T, s, Send(r, i)), s.routers[r];
    SendFacts(T, s, r, i);
    assert Covered(T, s, q, k);
    hide AfterSend, RouterOk, ChannelOk;
    if Message(q, s.routers[q].curr) in s.channels[k] { assert Message(q, s.routers[q].curr) in s'.channels[k]; }
    if q == r && k == i { assert s'.channels[i][|s.channels[i]|] == Message(r, x.curr); }
    if Applied(T, s, q, k) && s'.routers[q].curr == s.routers[q].curr { assert Applied(T, s', q, k); }
  }

  lemma SendInv(T: Matrix, s: Net, r: int, i: int)
    requires Inv(T, s) && Possible(s, Send(r, i))
    ensures Inv(T, Next(T, s, Send(r, i)))
  {
    var s' := Next(T, s, Send(r, i));
    SendFacts(T, s, r, i);
    hide AfterSend, VectorOk, Below, Applied;
    forall q | 0 <= q < |T| ensures RouterOk(T, s', q) { assert RouterOk(T, s, q); }
    forall q | 0 <= q < |T| ensures ChannelOk(T, s', q) { SendChannels(T, s, r, i, q); }
    forall q, k | 0 <= q < |T| && k in Neighbours(T, q) ensures Covered(T, s', q, k) { SendCovers(T, s, r, i, q, k); }
  }

  lemma SendChannels(T: Matrix, s: Net, r: int, i: int, q: int)
    requires Inv(T, s) && Possible(s, Send(r, i)) && 0 <= q < |T|
    ensures |Next(T, s, Send(r, i)).channels| == |T| && ChannelOk(T, Next(T, s, Send(r, i)), q)
  {
    SendFacts(T, s, r, i);
    assert ChannelOk(T, s, q);
  }

  /** What receiving does to router r. */
  lemma ReceiveFacts(T: Matrix, s: Net, r: int)
    requires Inv(T, s) && Possible(s, Receive(r))
    ensures var s' := Next(T, s, Receive(r));
      var x, x', m := s.routers[r], s'.routers[r], s.channels[r][0];
      && |s'.routers| == |s'.channels| == |T| && MessageOk(T, r, m) && RouterOk(T, s, r) && RouterOk(T, s', r)
      && Below(x'.next, x.next) && Below(x'.curr, x.curr)
      && (x'.curr == x.curr ==> x'.pending == x.pending)
      && (x'.curr != x.curr ==> x'.pending == Neighbours(T, r) && x'.next != x.next)
      && forall j {:trigger x'.next[j]} :: 0 <= j < |T| ==> x'.next[j] <= T[r][m.src] as int + m.dist[j] as int
  {
    var x, m := s.routers[r], s.channels[r][0];
    assert RouterOk(T, s, r) && ChannelOk(T, s, r) && MessageOk(T, r, m);
    var y := Relax(x.next, T[r][m.src], m.dist);
    RelaxOk(T, r, m.src, x.next, m.dist);
    ChangedMeans(x.curr, x.next, y);
    SettleKeeps(T, r, x.(next := y, changed := x.changed || y != x.next));
  }

  lemma ReceiveInv(T: Matrix, s: Net, r: int)
    requires Inv(T, s) && Possible(s, Receive(r))
    ensures Inv(T, Next(T, s, Receive(r)))
  {
    var s' := Next(T, s, Receive(r));
    ReceiveFacts(T, s, r);
    hide AfterReceive, VectorOk, Below, Applied;
    forall q | 0 <= q < |T| ensures RouterOk(T, s', q) { assert RouterOk(T, s, q); }
    forall q | 0 <= q < |T| ensures ChannelOk(T, s', q) { assert ChannelOk(T, s, q); }
    forall q, k | 0 <= q < |T| && k in Neighbours(T, q) ensures Covered(T, s', q, k) {
      if q != r || s'.routers[q].curr == s.routers[q].curr { ReceiveCovers(T, s, r, q, k); }
    }
  }

  lemma ChangedMeans(curr: Vector, next: Vector, y: Vector)
    requires Below(next, curr) && Below(y, next)
    ensures (next != curr || y != next) <==> y != curr
  {
    if y == curr {
      forall j | 0 <= j < |y| ensures next[j] == curr[j] && y[j] == next[j] { }
      assert next == curr && y == next;
    }
  }

  lemma ReceiveCovers(T: Matrix, s: Net, r: int, q: int, k: int)
    requires Inv(T, s) && Possible(s, Receive(r)) && 0 <= q < |T| && k in Neighbours(T, q)
    requires Next(T, s, Receive(r)).routers[q].curr == s.routers[q].curr
    ensures Covered(T, Next(T, s, Receive(r)), q, k)
  {
    var s', m := Next(T, s, Receive(r)), s.channels[r][0];
    var c := Message(q, s.routers[q].curr);
    ReceiveFacts(T, s, r);
    ReceiveChannels(T, s, r);
    assert RouterOk(T, s, q) && RouterOk(T, s, k) && Covered(T, s, q, k);
    hide Next, RouterOk, VectorOk, ChannelOk, MessageOk, Neighbours;
    if k == r && c == m {
      assert Applied(T, s', q, k);
    } else if c in s.channels[k] {
      OnlyHead(s.channels[r], c);
      assert c in s'.channels[k];
    } else if Applied(T, s, q, k) {
      assert Below(s'.routers[k].next, s.routers[k].next);
      AppliedStays(T, s, s', q, k);
    }
  }

  lemma ReceiveChannels(T: Matrix, s: Net, r: int)
    requires |s.routers| == |s.channels| == |T| && Possible(s, Receive(r))
    ensures var s' := Next(T, s, Receive(r));
      && s'.channels == s.channels[r := s.channels[r][1..]] && |s'.routers| == |s.routers|
      && forall k :: 0 <= k < |T| && k != r ==> s'.routers[k] == s.routers[k]
  {
    hide AfterReceive;
  }

  lemma AppliedStays(T: Matrix, s: Net, s': Net, q: int, k: int)
    requires 0 <= q < |s.routers| == |s'.routers| && 0 <= k < |s.routers| && Applied(T, s, q, k)
    requires s'.routers[q].curr == s.routers[q].curr && Below(s'.routers[k].next, s.routers[k].next)
    ensures Applied(T, s', q, k)
  {
  }

  lemma OnlyHead<M>(s: seq<M>, c: M)
    requires s != []
    ensures c in s ==> c == s[0] || c in s[1..]
  {
    assert s == [s[0]] + s[1..];
  }

  lemma NextInv(T: Matrix, s: Net, st: Step)
    requires Inv(T, s) && Possible(s, st)
    ensures Inv(T, Next(T, s, st))
  {
    match st
    case Send(r, i) => SendInv(T, s, r, i);
    case Receive(r) => ReceiveInv(T, s, r);
    case Handoff(r, i) =>
      SendInv(T, s, r, i);
      ReceiveInv(T, Sent(T, s, r, i), i);
  }

  lemma NextBounded(T: Matrix, s: Net, st: Step)
    requires |s.routers| == |s.channels| == |T| && Bounded(s) && Enabled(s, st)
    ensures Bounded(Next(T, s, st)) && Next(T, s, st).capacity == s.capacity
  {
    hide AfterSend, AfterReceive;
  }

  // ---------- Whole runs ----------

  /** A run: the states from the start on, each an enabled step after the one before. */
  ghost predicate IsRun(T: Matrix, states: seq<Net>, steps: seq<Step>)
    decreases |steps|
  {
    && |states| == |steps| + 1
    && (if steps == [] then Start(T, states[0])
        else
          var k := |steps| - 1;
          && IsRun(T, states[..k + 1], steps[..k])
          && |states[k].routers| == |states[k].channels| == |T| && Enabled(states[k], steps[k]) && states[k + 1] == Next(T, states[k], steps[k]))
  }

  lemma {:induction false} RunInv(T: Matrix, states: seq<Net>, steps: seq<Step>)
    requires Capped(T, |T|) && Mutual(T) && IsRun(T, states, steps)
    ensures Inv(T, states[|steps|]) && Bounded(states[|steps|])
    decreases |steps|
  {
    if steps == [] { StartInv(T, states[0]); }
    else {
      var k := |steps| - 1;
      RunInv(T, states[..k + 1], steps[..k]);
      NextInv(T, states[k], steps[k]);
      NextBounded(T, states[k], steps[k]);
    }
  }

  /** Nothing unsent, in flight or unapplied. */
  ghost predicate Quiescent(s: Net) {
    && (forall r :: 0 <= r < |s.routers| ==> s.routers[r].pending == {})
    && (forall r :: 0 <= r < |s.channels| ==> s.channels[r] == [])
  }

  /** A state in which no router can move is quiescent, and the other way round: when a channel is full, its
      router can receive. */
  lemma StuckMeansQuiescent(T: Matrix, s: Net)
    requires Inv(T, s) && Bounded(s)
    ensures Quiescent(s) <==> forall st: Step :: !Enabled(s, st)
  {
    if forall st: Step :: !Enabled(s, st) {
      forall r | 0 <= r < |s.channels| ensures s.channels[r] == [] { assert !Enabled(s, Receive(r)); }
      forall r | 0 <= r < |s.routers| ensures s.routers[r].pending == {} {
        assert RouterOk(T, s, r);
        forall i ensures i !in s.routers[r].pending {
          assert !Enabled(s, Send(r, i)) && !Enabled(s, Handoff(r, i));
        }
      }
    }
  }

  /** In a quiescent state every router knows the least costs, as computed by Floyd and Warshall's algorithm. */
  lemma QuiescentIsLeast(T: Matrix, s: Net, r: int, j: int)
    requires Inv(T, s) && Quiescent(s) && 0 <= r < |T| && 0 <= j < |T|
    ensures RouterOk(T, s, r) && LeastCost(T, r, j, s.routers[r].curr[j])
  {
    assert RouterOk(T, s, r);
    assert EntryOk(T, r, j, s.routers[r].curr[j]);
    forall w | Walk(T, w, r, j) ensures s.routers[r].curr[j] <= Cost(T, w) { QuiescentBelow(T, s, r, j, w); }
  }

  lemma {:induction false} QuiescentBelow(T: Matrix, s: Net, r: int, j: int, w: seq<int>)
    requires Inv(T, s) && Quiescent(s) && Walk(T, w, r, j)
    ensures 0 <= r < |T| && 0 <= j < |T| && RouterOk(T, s, r) && s.routers[r].curr[j] <= Cost(T, w)
    decreases |w|
  {
    assert RouterOk(T, s, r);
    assert Cost(T, w) == Link(T, w[0], w[1]) + Cost(T, w[1..]);
    var k := w[1];
    if |w| == 2 {
      CostNonnegative(T, w[1..]);
    } else {
      WalkPart(T, w, r, j, 1, |w| - 1);
      assert w[1..|w|] == w[1..];
      QuiescentBelow(T, s, k, j, w[1..]);
      if k != r { QuiescentStep(T, s, r, k, j); }
    }
  }

  /** Whatever a neighbour knows in a quiescent state, r knows by way of it. */
  lemma QuiescentStep(T: Matrix, s: Net, r: int, k: int, j: int)
    requires Inv(T, s) && Quiescent(s) && 0 <= r < |T| && 0 <= k < |T| && 0 <= j < |T| && k != r && T[r][k] < INF
    ensures RouterOk(T, s, r) && RouterOk(T, s, k)
    ensures s.routers[r].curr[j] <= T[r][k] as int + s.routers[k].curr[j] as int
  {
    assert RouterOk(T, s, r) && RouterOk(T, s, k);
    assert r in Neighbours(T, k);
    assert Covered(T, s, k, r);
    assert Applied(T, s, k, r);
    assert s.routers[r].next[j] <= T[r][k] as int + s.routers[k].curr[j] as int;
  }

  lemma NeverUp(T: Matrix, s: Net, st: Step, r: int)
    requires Inv(T, s) && Possible(s, st) && 0 <= r < |T|
    ensures RouterOk(T, s, r) && RouterOk(T, Next(T, s, st), r)
    ensures var x, y := s.routers[r], Next(T, s, st).routers[r]; Below(y.curr, x.curr) && Below(y.next, x.next)
  {
    NextInv(T, s, st);
    assert RouterOk(T, s, r) && RouterOk(T, Next(T, s, st), r);
    match st
    case Send(q, i) => SendFacts(T, s, q, i);
    case Receive(q) => ReceiveFacts(T, s, q);
    case Handoff(q, i) =>
      var s1 := Sent(T, s, q, i);
      SendInv(T, s, q, i);
      SendFacts(T, s, q, i);
      ReceiveFacts(T, s1, i);
      hide AfterSend, AfterReceive;
      BelowAll(s.routers[r].curr, s1.routers[r].curr, Next(T, s, st).routers[r].curr);
      BelowAll(s.routers[r].next, s1.routers[r].next, Next(T, s, st).routers[r].next);
  }

  lemma BelowAll(a: Vector, b: Vector, c: Vector)
    requires Below(b, a) && Below(c, b)
    ensures Below(c, a)
  {
  }

  /** No step raises an entry, and every entry stays at or above the least cost. */
  lemma NeverBelowNeverUp(T: Matrix, s: Net, st: Step, r: int, j: int, d: int)
    requires Inv(T, s) && Possible(s, st) && 0 <= r < |T| && 0 <= j < |T| && LeastCost(T, r, j, d)
    ensures RouterOk(T, s, r) && RouterOk(T, Next(T, s, st), r)
    ensures var x, y := s.routers[r], Next(T, s, st).routers[r];
      d <= y.curr[j] <= x.curr[j] && d <= y.next[j] <= x.next[j]
  {
    NeverUp(T, s, st, r);
    var y := Next(T, s, st).routers[r];
    hide Next;
    assert EntryOk(T, r, j, y.curr[j]) && EntryOk(T, r, j, y.next[j]);
  }

  /** The check that the stress program makes: a converged router agrees with any table of least costs. */
  lemma AgreesWithFloydWarshall(T: Matrix, s: Net, solution: Matrix, r: int, j: int)
    requires Inv(T, s) && Quiescent(s) && Square(solution, |T|) && 0 <= r < |T| && 0 <= j < |T|
    requires LeastCost(T, r, j, solution[r][j])
    ensures RouterOk(T, s, r) && s.routers[r].curr[j] == solution[r][j]
  {
    QuiescentIsLeast(T, s, r, j);
    LeastCostUnique(T, r, j, s.routers[r].curr[j], solution[r][j]);
  }

  // ---------- Every run comes to an end ----------

  ghost function Sum(v: seq<int>): int {
    if v == [] then 0 else v[0] + Sum(v[1..])
  }

  lemma {:induction false} SumUpdate(v: seq<int>, i: nat, x: int)
    requires i < |v|
    ensures Sum(v[i := x]) == Sum(v) - v[i] + x
  {
    if i == 0 {
      assert v[i := x][1..] == v[1..];
    } else {
      SumUpdate(v[1..], i - 1, x);
      assert v[i := x][1..] == v[1..][i - 1 := x];
    }
  }

  lemma {:induction false} SumNonnegative(v: seq<int>)
    requires forall i :: 0 <= i < |v| ==> v[i] >= 0
    ensures Sum(v) >= 0
  {
    if v != [] { SumNonnegative(v[1..]); }
  }

  lemma {:induction false} SumBelow(v: Vector, u: Vector)
    requires Below(v, u)
    ensures Sum(v) <= Sum(u) && (v != u ==> Sum(v) < Sum(u))
  {
    if v != [] {
      assert v[0] <= u[0];
      forall j {:trigger v[1..][j]} | 0 <= j < |v[1..]| ensures v[1..][j] <= u[1..][j] { assert v[j + 1] <= u[j + 1]; }
      SumBelow(v[1..], u[1..]);
      assert v == [v[0]] + v[1..] && u == [u[0]] + u[1..];
    }
  }

  ghost function Weight(x: Router): int { Sum(x.curr) + Sum(x.next) }

  /** All the distances the routers hold, added up. */
  ghost function Distances(s: Net): int {
    Sum(seq(|s.routers|, r requires 0 <= r < |s.routers| => Weight(s.routers[r])))
  }

  ghost function Unsent(s: Net): int {
    Sum(seq(|s.routers|, r requires 0 <= r < |s.routers| => |s.routers[r].pending|))
  }

  ghost function InFlight(s: Net): int {
    Sum(seq(|s.channels|, r requires 0 <= r < |s.channels| => |s.channels[r]|))
  }

  /** Sends still to be made count twice, messages on their way once. */
  ghost function Work(s: Net): int { 2 * Unsent(s) + InFlight(s) }

  lemma MeasureNonnegative(T: Matrix, s: Net)
    requires Inv(T, s)
    ensures Distances(s) >= 0 && Work(s) >= 0
  {
    var w := seq(|s.routers|, r requires 0 <= r < |s.routers| => Weight(s.routers[r]));
    forall r | 0 <= r < |w| ensures w[r] >= 0 {
      assert RouterOk(T, s, r);
      SumNonnegative(s.routers[r].curr);
      SumNonnegative(s.routers[r].next);
    }
    SumNonnegative(w);
    SumNonnegative(seq(|s.routers|, r requires 0 <= r < |s.routers| => |s.routers[r].pending|));
    SumNonnegative(seq(|s.channels|, r requires 0 <= r < |s.channels| => |s.channels[r]|));
  }

  lemma RouterUpdateSums(s: Net, s': Net, r: int)
    requires 0 <= r < |s.routers| == |s'.routers| && s'.routers == s.routers[r := s'.routers[r]]
    ensures Distances(s') == Distances(s) - Weight(s.routers[r]) + Weight(s'.routers[r])
    ensures Unsent(s') == Unsent(s) - |s.routers[r].pending| + |s'.routers[r].pending|
  {
    var w := seq(|s.routers|, q requires 0 <= q < |s.routers| => Weight(s.routers[q]));
    var w' := seq(|s'.routers|, q requires 0 <= q < |s'.routers| => Weight(s'.routers[q]));
    SumUpdate(w, r, Weight(s'.routers[r]));
    assert w' == w[r := Weight(s'.routers[r])];
    var p := seq(|s.routers|, q requires 0 <= q < |s.routers| => |s.routers[q].pending|);
    var p' := seq(|s'.routers|, q requires 0 <= q < |s'.routers| => |s'.routers[q].pending|);
    SumUpdate(p, r, |s'.routers[r].pending|);
    assert p' == p[r := |s'.routers[r].pending|];
  }

  lemma ChannelUpdateSum(s: Net, s': Net, i: int)
    requires 0 <= i < |s.channels| == |s'.channels| && s'.channels == s.channels[i := s'.channels[i]]
    ensures InFlight(s') == InFlight(s) - |s.channels[i]| + |s'.channels[i]|
  {
    var w := seq(|s.channels|, q requires 0 <= q < |s.channels| => |s.channels[q]|);
    var w' := seq(|s'.channels|, q requires 0 <= q < |s'.channels| => |s'.channels[q]|);
    SumUpdate(w, i, |s'.channels[i]|);
    assert w' == w[i := |s'.channels[i]|];
  }

  lemma SendDescends(T: Matrix, s: Net, r: int, i: int)
    requires Inv(T, s) && Possible(s, Send(r, i))
    ensures Inv(T, Sent(T, s, r, i)) && Lower(Sent(T, s, r, i), s)
  {
    var s' := Sent(T, s, r, i);
    var x, x' := s.routers[r], s'.routers[r];
    SendInv(T, s, r, i);
    SendFacts(T, s, r, i);
    hide AfterSend;
    RouterUpdateSums(s, s', r);
    ChannelUpdateSum(s, s', i);
    SumBelow(x'.curr, x.curr);
    MeasureNonnegative(T, s');
  }

  lemma ReceiveDescends(T: Matrix, s: Net, r: int)
    requires Inv(T, s) && Possible(s, Receive(r))
    ensures Inv(T, Received(T, s, r)) && Lower(Received(T, s, r), s)
  {
    var s' := Received(T, s, r);
    var x, x' := s.routers[r], s'.routers[r];
    ReceiveInv(T, s, r);
    ReceiveFacts(T, s, r);
    hide AfterReceive;
    RouterUpdateSums(s, s', r);
    ChannelUpdateSum(s, s', r);
    SumBelow(x'.curr, x.curr);
    SumBelow(x'.next, x.next);
    MeasureNonnegative(T, s');
  }

  /** The distances held are lower, or they are the same and the work is less. */
  ghost predicate Lower(s': Net, s: Net) {
    && 0 <= Distances(s') <= Distances(s) && 0 <= Work(s')
    && (Distances(s') < Distances(s) || Work(s') < Work(s))
  }

  /** Every step lowers the distances held, or leaves them and lowers the work. */
  lemma StepDescends(T: Matrix, s: Net, st: Step)
    requires Inv(T, s) && Possible(s, st)
    ensures Lower(Next(T, s, st), s)
  {
    match st
    case Send(r, i) => SendDescends(T, s, r, i);
    case Receive(r) => ReceiveDescends(T, s, r);
    case Handoff(r, i) =>
      SendDescends(T, s, r, i);
      ReceiveDescends(T, Sent(T, s, r, i), i);
  }

  // ---------- How long a run can be ----------

  lemma {:induction false} SumAtMost(v: seq<int>, b: nat)
    requires forall i {:trigger v[i]} :: 0 <= i < |v| ==> v[i] <= b
    ensures Sum(v) <= |v| * b
  {
    if v != [] {
      SumAtMost(v[1..], b);
      assert |v| * b == b + |v[1..]| * b;
    }
  }

  /** No state has more work than this. */
  ghost function MostWork(T: Matrix, s: Net): nat { 2 * (|T| * |T|) + |T| * s.capacity }

  lemma WorkAtMost(T: Matrix, s: Net)
    requires Inv(T, s) && Bounded(s)
    ensures Work(s) <= MostWork(T, s)
  {
    var p := seq(|s.routers|, r requires 0 <= r < |s.routers| => |s.routers[r].pending|);
    forall r | 0 <= r < |p| ensures p[r] <= |T| {
      assert RouterOk(T, s, r);
      FewNeighbours(T, r, s.routers[r].pending);
    }
    SumAtMost(p, |T|);
    var q := seq(|s.channels|, r requires 0 <= r < |s.channels| => |s.channels[r]|);
    SumAtMost(q, s.capacity);
  }

  lemma FewNeighbours(T: Matrix, r: int, p: set<int>)
    requires Capped(T, |T|) && 0 <= r < |T| && p <= Neighbours(T, r)
    ensures |p| <= |T|
  {
    forall i | i in p ensures 0 <= i < |T| { assert i in Neighbours(T, r); }
    FewBelow(p, |T|);
  }

  lemma {:induction false} FewBelow(p: set<int>, n: nat)
    requires forall i {:trigger i in p} :: i in p ==> 0 <= i < n
    ensures |p| <= n
  {
    if n > 0 {
      FewBelow(p - {n - 1}, n - 1);
      if n - 1 in p { assert p == (p - {n - 1}) + {n - 1}; } else { assert p == p - {n - 1}; }
    } else {
      forall i ensures i !in p { assert i in p ==> 0 <= i < n; }
      assert p == {};
    }
  }

  /** The distances held, with the work below them. */
  ghost function Potential(T: Matrix, s: Net): int { Distances(s) * (MostWork(T, s) + 1) + Work(s) }

  lemma PotentialFalls(T: Matrix, s: Net, st: Step)
    requires Inv(T, s) && Bounded(s) && Enabled(s, st)
    ensures 0 <= Potential(T, Next(T, s, st)) < Potential(T, s)
  {
    var s' := Next(T, s, st);
    NextInv(T, s, st);
    NextBounded(T, s, st);
    StepDescends(T, s, st);
    WorkAtMost(T, s');
    MeasureNonnegative(T, s);
    hide Next, Distances, Work;
    assert MostWork(T, s') == MostWork(T, s);
    Falls(Distances(s'), Work(s'), Distances(s), Work(s), MostWork(T, s) + 1);
  }

  lemma Falls(d': int, w': int, d: int, w: int, k: nat)
    requires 0 <= d' <= d && 0 <= w' < k && 0 <= w && (d' < d || w' < w)
    ensures 0 <= d' * k + w' < d * k + w
  {
    Product(d', k);
    if d' < d {
      Product(d - d' - 1, k);
      assert d * k == (d' + 1 + (d - d' - 1)) * k == d' * k + k + (d - d' - 1) * k;
    }
  }

  lemma Product(a: nat, b: nat)
    ensures a * b >= 0
  {
  }

  /** A run takes no more steps than the potential it starts with. */
  lemma {:induction false} RunsAreShort(T: Matrix, states: seq<Net>, steps: seq<Step>)
    requires Capped(T, |T|) && Mutual(T) && IsRun(T, states, steps)
    ensures |steps| <= Potential(T, states[0]) - Potential(T, states[|steps|])
    ensures Potential(T, states[|steps|]) >= 0
    decreases |steps|
  {
    RunInv(T, states, steps);
    if steps == [] {
      MeasureNonnegative(T, states[0]);
      assert Distances(states[0]) * (MostWork(T, states[0]) + 1) >= 0;
    } else {
      var k := |steps| - 1;
      RunsAreShort(T, states[..k + 1], steps[..k]);
      RunInv(T, states[..k + 1], steps[..k]);
      PotentialFalls(T, states[k], steps[k]);
      assert states[..k + 1][0] == states[0] && states[..k + 1][k] == states[k];
    }
  }

  /** Every run can be continued to a quiescent state, and cannot go on for ever: RunsAreShort. There every router
      knows the least costs. */
  lemma {:induction false} EveryRunSettles(T: Matrix, states: seq<Net>, steps: seq<Step>)
      returns (states': seq<Net>, steps': seq<Step>)
    requires Capped(T, |T|) && Mutual(T) && IsRun(T, states, steps)
    ensures IsRun(T, states', steps') && states <= states' && steps <= steps'
    ensures Inv(T, states'[|steps'|]) && Quiescent(states'[|steps'|])
    decreases Potential(T, states[|steps|])
  {
    RunInv(T, states, steps);
    var s := states[|steps|];
    StuckMeansQuiescent(T, s);
    if Quiescent(s) {
      states', steps' := states, steps;
    } else {
      var st: Step :| Enabled(s, st);
      PotentialFalls(T, s, st);
      var more, moreSteps := states + [Next(T, s, st)], steps + [st];
      assert more[..|steps| + 1] == states && moreSteps[..|steps|] == steps;
      RunsAreShort(T, more, moreSteps);
      states', steps' := EveryRunSettles(T, more, moreSteps);
    }
  }
}

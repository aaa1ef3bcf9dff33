// When a game of two running clients can go on. From every reachable state the clients can
// make or accept another move, on their own timers and clocks, exactly when a move is due.

module Progress {
  import opened Words
  import opened Time
  import opened TimerQueue
  import opened EventLoop
  import opened Board
  import opened Codec
  import opened Peer
  import opened Process
  import opened Conservation
  import opened Network
  import Plain = TwoPeers

  // ---------------------------------------------------------------- runs

  lemma {:induction false} RunJoin(n: Pair, x: seq<Step>, y: seq<Step>)
    ensures Network.Run(n, x + y) == Network.Run(Network.Run(n, x), y)
  {
    hide Next;
    if y == [] {
      assert x + y == x;
    } else {
      assert (x + y)[..|x + y| - 1] == x + y[..|y| - 1];
      RunJoin(n, x, y[..|y| - 1]);
    }
  }

  lemma RunStep(n: Pair, st: Step)
    ensures Network.Run(n, [st]) == Next(n, st)
  {
    hide Next;
    assert [st][..0] == [];
  }

  lemma RunKeepsInv(n: Pair, steps: seq<Step>)
    requires Network.Inv(n)
    ensures Network.Inv(Network.Run(n, steps))
  {
    hide Orderly, Plain.Inv, Network.Run;
    var ts := RunRefines(n, steps);
    RunInv(Untimed(n), ts);
  }

  function SwapStep(st: Step): Step {
    match st
    case Event(side, wait, wakeup, delay) => Event(if side.A? then Plain.B else Plain.A, wait, wakeup, delay)
    case Tamper(t) => Tamper(Swap(t))
  }

  function SwapSteps(steps: seq<Step>): seq<Step> {
    if steps == [] then [] else SwapSteps(steps[..|steps| - 1]) + [SwapStep(steps[|steps| - 1])]
  }

  lemma SwapStepNext(n: Pair, st: Step)
    ensures Next(Mirror(n), SwapStep(st)) == Mirror(Next(n, st))
  {
    hide Serve, Plain.Next;
    match st
    case Event(side, _, _, _) =>
      var m := if side.A? then n else Mirror(n);
      assert EventA(m, SwapStep(st)) == EventA(m, st);
    case Tamper(t) => SwapNext(Untimed(n), t);
  }

  lemma {:induction false} SwapStepsRun(n: Pair, steps: seq<Step>)
    ensures Network.Run(Mirror(n), SwapSteps(steps)) == Mirror(Network.Run(n, steps))
    ensures InSequence(steps) ==> InSequence(SwapSteps(steps))
  {
    hide Next;
    if steps != [] {
      var prefix, st := steps[..|steps| - 1], steps[|steps| - 1];
      SwapStepsRun(n, prefix);
      SwapStepNext(Network.Run(n, prefix), st);
      RunJoin(Mirror(n), SwapSteps(prefix), [SwapStep(st)]);
      RunStep(Network.Run(Mirror(n), SwapSteps(prefix)), SwapStep(st));
    }
  }

  lemma MirrorKeepsInv(n: Pair)
    ensures Network.Inv(Mirror(n)) <==> Network.Inv(n)
  {
    hide Orderly, Plain.Inv;
    Plain.MirrorInv(Untimed(n));
  }

  // ---------------------------------------------------------------- timers that are due

  // How many timers at the front of the queue stop before this instant.
  function Overdue(q: Queue<ClientTimer>, now: int): nat {
    if q == [] || q[0].stop.Micros() >= now then 0 else 1 + Overdue(q[1..], now)
  }

  lemma {:induction false} InsertOverdue(q: Queue<ClientTimer>, e: Entry<ClientTimer>, now: int)
    requires e.stop.Micros() >= now
    ensures Overdue(Insert(q, e), now) == Overdue(q, now)
  {
    if q == [] || Time.Before(e.stop, q[0].stop) {
      assert Insert(q, e) == [e] + q;
    } else {
      assert Insert(q, e) == [q[0]] + Insert(q[1..], e);
      InsertOverdue(q[1..], e, now);
    }
  }

  // What a retransmission leaves of its peer.
  predicate Settled(p: Peer, r: Peer) {
    && r.history == p.history && r.board == p.board && r.outcome == p.outcome && r.phase == p.phase
    && r.nextSequence == p.nextSequence && r.nextExpected == p.nextExpected
  }

  lemma OverdueFires(c: Process, r: Round)
    requires c.loop.queue != [] && c.loop.queue[0].stop.Micros() < c.loop.clock.Micros() + r.wait
    ensures VerdictOf(c, r).Fires? && VerdictOf(c, r).at.Micros() == c.loop.clock.Micros() + r.wait
  {
    hide WakeOf;
  }

  // The callback of an expired timer starts it again, and sends its message.
  lemma ExpiryStarts(p: Peer, t: ClientTimer) returns (timeout: uint32)
    requires t.Retransmission? ==> FindUnAck(p.unacked, t.sequence) < |p.unacked|
    ensures var e := OnExpiry(p, t, 0);
      && e.ops == [Op.Start(t, timeout, 0)] && Settled(p, e.peer)
      && (t.Retransmission? ==> |e.sent| == 1 && e.sent[0].Column? && e.sent[0].sequence == t.sequence)
  {
    timeout := if t.Pulse? then HEARTBEAT_INTERVAL else p.unacked[FindUnAck(p.unacked, t.sequence)].nextTimeout;
  }

  // The callback of the first timer, when it is overdue.
  lemma ServeOverdue(c: Process, r: Round) returns (e: Entry<ClientTimer>)
    requires Orderly(c) && c.loop.queue != [] && r.delay == 0
    requires c.loop.queue[0].stop.Micros() < c.loop.clock.Micros() + r.wait
    ensures var d := Serve(c, r); var head := c.loop.queue[0];
      && !d.read && Settled(c.peer, d.process.peer)
      && d.process.loop.clock.Micros() == c.loop.clock.Micros() + r.wait <= e.stop.Micros()
      && e.timer == head.timer && d.process.loop.queue == Insert(c.loop.queue[1..], e)
      && (head.timer.Retransmission? ==>
            |d.sent| == 1 && d.sent[0].Column? && d.sent[0].sequence == head.timer.sequence)
  {
    hide Orderly, Insert, OnExpiry, VerdictOf, WakeOf, Settled,
         Perform, PerformAll, Decide, EventLoop.Expire, Timeval.Micros;
    OverdueFires(c, r);
    ExpiryFinds(c, r);
    InvDistinct(c);
    var at, t := VerdictOf(c, r).at, c.loop.queue[0].timer;
    var timeout := ExpiryStarts(c.peer, t);
    e := Entry(t, StopTime(Later(at, 0), timeout));
    RestartsHead(c.loop, at, timeout);
    OneOp(EventLoop.Expire(c.loop, at), Op.Start(t, timeout, 0));
    ServeFires(c, r);
  }

  lemma ServeFires(c: Process, r: Round)
    requires VerdictOf(c, r).Fires?
    ensures var at := VerdictOf(c, r).at; var e := OnExpiry(c.peer, c.loop.queue[0].timer, r.delay);
      && c.loop.queue != []
      && Serve(c, r) == Served(Process(e.peer, PerformAll(EventLoop.Expire(c.loop, at), e.ops)), e.sent, false)
  {
    hide OnExpiry, Decide, PerformAll, EventLoop.Expire, WakeOf;
  }

  lemma InvDistinct(c: Process)
    requires Orderly(c)
    ensures Distinct(c.loop.queue) && Sorted(c.loop.queue)
  {
    hide Sound, Wanted, InStep;
  }

  lemma RestartsHead(s: ClientLoop, at: Instant, timeout: uint32)
    requires s.queue != [] && Distinct(s.queue)
    ensures var head := s.queue[0];
      Perform(EventLoop.Expire(s, at), Op.Start(head.timer, timeout, 0)).queue
      == Insert(s.queue[1..], Entry(head.timer, StopTime(Later(at, 0), timeout)))
    ensures Perform(EventLoop.Expire(s, at), Op.Start(s.queue[0].timer, timeout, 0)).clock.Micros() == at.Micros()
  {
    hide Insert;
  }

  // One call of handle_event that finds the first timer of A overdue.
  lemma FireOverdue(n: Pair, wait: nat) returns (st: Step, e: Entry<ClientTimer>)
    requires Orderly(n.a) && n.a.peer.outcome.Playing? && n.a.loop.queue != []
    requires n.a.loop.queue[0].stop.Micros() < n.a.loop.clock.Micros() + wait
    ensures st.Event?
    ensures var r := Next(n, st); var head := n.a.loop.queue[0];
      && r.b == n.b && r.toA == n.toA && Settled(n.a.peer, r.a.peer) && n.toB <= r.toB
      && r.a.loop.clock.Micros() == n.a.loop.clock.Micros() + wait <= e.stop.Micros()
      && e.timer == head.timer && r.a.loop.queue == Insert(n.a.loop.queue[1..], e)
      && (head.timer.Retransmission? ==> Sent(r.toB, head.timer.sequence))
  {
    hide Serve, Orderly;
    st := Event(Plain.A, wait, Elapses(0), 0);
    e := ServeOverdue(n.a, RoundOf(st, n.toA));
    var r := Next(n, st);
    if n.a.loop.queue[0].timer.Retransmission? {
      assert r.toB[|n.toB|].Column? && r.toB[|n.toB|].sequence == n.a.loop.queue[0].timer.sequence;
    }
  }

  // The messages of all timers that stop before `now` are in flight.
  ghost predicate AllSent(q: Queue<ClientTimer>, now: int, channel: seq<Message>) {
    forall e :: e in q && e.stop.Micros() < now && e.timer.Retransmission? ==> Sent(channel, e.timer.sequence)
  }

  lemma NoneOverdue(q: Queue<ClientTimer>, now: int, channel: seq<Message>)
    requires Sorted(q) && (q != [] ==> q[0].stop.Micros() >= now)
    ensures AllSent(q, now, channel)
  {
    hide Sent, Timeval.Micros;
    forall e | e in q ensures e.stop.Micros() >= now {
      var i :| 0 <= i < |q| && q[i] == e;
    }
  }

  lemma SentMore(x: seq<Message>, y: seq<Message>, sequence: int)
    requires x <= y && Sent(x, sequence)
    ensures Sent(y, sequence)
  {
    var i :| 0 <= i < |x| && x[i].Column? && x[i].sequence == sequence;
    assert y[i] == x[i];
  }

  // All overdue timers of A have fired when the others' messages have been sent.
  lemma AllSentBefore(q: Queue<ClientTimer>, e: Entry<ClientTimer>, now: int, x: seq<Message>, y: seq<Message>)
    requires q != [] && AllSent(Insert(q[1..], e), now, y) && x <= y
    requires q[0].timer.Retransmission? ==> Sent(x, q[0].timer.sequence)
    ensures AllSent(q, now, y)
  {
    hide Sent, Place, Timeval.Micros;
    forall f | f in q && f.stop.Micros() < now && f.timer.Retransmission? ensures Sent(y, f.timer.sequence) {
      if f == q[0] {
        SentMore(x, y, f.timer.sequence);
      } else {
        assert f in q[1..];
        assert f in Insert(q[1..], e);
      }
    }
  }

  // A waits, and then fires all its overdue timers.
  lemma {:induction false} CatchUp(n: Pair, wait: nat) returns (steps: seq<Step>)
    requires Orderly(n.a) && Orderly(n.b) && n.a.peer.outcome.Playing?
    ensures InSequence(steps)
    ensures var r := Network.Run(n, steps); var q := r.a.loop.queue;
      && Orderly(r.a) && r.b == n.b && r.toA == n.toA && Settled(n.a.peer, r.a.peer) && n.toB <= r.toB
      && AllSent(n.a.loop.queue, n.a.loop.clock.Micros() + wait, r.toB)
      && (q != [] ==> r.a.loop.clock.Micros() <= q[0].stop.Micros())
    decreases Overdue(n.a.loop.queue, n.a.loop.clock.Micros() + wait)
  {
    hide Orderly, Next, Serve, AllSent, Timeval.Micros, Insert;
    var q, now := n.a.loop.queue, n.a.loop.clock.Micros() + wait;
    if q == [] || q[0].stop.Micros() >= now {
      steps := [];
      InvDistinct(n.a);
      NoneOverdue(q, now, n.toB);
    } else {
      var st, e := FireOverdue(n, wait);
      var m := Next(n, st);
      NextOrderly(n, st);
      InsertOverdue(q[1..], e, now);
      var rest := CatchUp(m, 0);
      AllSentBefore(q, e, now, m.toB, Network.Run(m, rest).toB);
      steps := [st] + rest;
      RunJoin(n, [st], rest);
      RunStep(n, st);
    }
  }

  // ---------------------------------------------------------------- a move

  lemma PassesNow(n: Pair, st: Step)
    requires Orderly(n.a) && n.a.peer.outcome.Playing? && st.Event? && st.wait == 0 && st.wakeup.Arrives?
    requires n.a.loop.queue != [] ==> n.a.loop.clock.Micros() <= n.a.loop.queue[0].stop.Micros()
    ensures MovesA(n, st) == FirstMove(RoundOf(st, n.toA)) + SecondMove(n.a.peer, RoundOf(st, n.toA))
    ensures Plain.Run(Untimed(n), MovesA(n, st)) == Untimed(EventA(n, st))
  {
    hide Orderly, FirstMove, SecondMove, Reads, EventA;
    assert VerdictOf(n.a, RoundOf(st, n.toA)).Passes?;
    EventRefines(n, st);
  }

  // A number entered at A when no timer is overdue.
  lemma EntersNow(n: Pair, move: int) returns (st: Step)
    requires Orderly(n.a) && n.a.peer.outcome.Playing?
    requires n.a.loop.queue != [] ==> n.a.loop.clock.Micros() <= n.a.loop.queue[0].stop.Micros()
    ensures st.Event? && st.side.A? && Untimed(Next(n, st)) == Plain.Next(Untimed(n), Plain.Stdin(Plain.A, move))
  {
    hide Orderly, EventA, MovesA, Plain.Next, Untimed;
    st := Event(Plain.A, 0, Arrives(Some(move), false, 0), 0);
    PassesNow(n, st);
    assert MovesA(n, st) == [Plain.Stdin(Plain.A, move)];
    RunOne(Untimed(n), Plain.Stdin(Plain.A, move));
  }

  // A datagram read by A when no timer is overdue.
  lemma ReadsNow(n: Pair) returns (st: Step)
    requires Orderly(n.a) && n.a.peer.outcome.Playing? && n.toA != []
    requires n.a.loop.queue != [] ==> n.a.loop.clock.Micros() <= n.a.loop.queue[0].stop.Micros()
    ensures st.Event? && st.side.A? && Untimed(Next(n, st)) == Plain.Next(Untimed(n), Plain.Deliver(Plain.A))
  {
    hide Orderly, EventA, MovesA, Plain.Next, Untimed;
    st := Event(Plain.A, 0, Arrives(None, true, 0), 0);
    PassesNow(n, st);
    assert MovesA(n, st) == [Plain.Deliver(Plain.A)];
    RunOne(Untimed(n), Plain.Deliver(Plain.A));
  }

  // The network loses the first k datagrams in flight to A.
  lemma {:induction false} DropFirst(n: Pair, k: nat) returns (steps: seq<Step>)
    requires k <= |n.toA|
    ensures InSequence(steps) && Network.Run(n, steps) == n.(toA := n.toA[k..])
    decreases k
  {
    if k == 0 {
      steps := [];
    } else {
      var st := Tamper(Plain.Lose(Plain.A, 0));
      assert Next(n, st) == n.(toA := n.toA[1..]);
      var rest := DropFirst(n.(toA := n.toA[1..]), k - 1);
      steps := [st] + rest;
      RunJoin(n, [st], rest);
      RunStep(n, st);
      assert n.toA[1..][k - 1..] == n.toA[k..];
    }
  }

  // A has the turn and the board is not full: A can make a move.
  lemma MoveCanBeMade(n: Pair) returns (steps: seq<Step>)
    requires Network.Inv(n) && Plain.TurnOf(n.a.peer) == 1 && |n.a.peer.history| < ROWS * COLS
    ensures InSequence(steps)
    ensures var r := Network.Run(n, steps);
      |r.a.peer.history| == |n.a.peer.history| + 1 && r.b == n.b
  {
    hide Orderly, Next, Plain.Inv, Plain.Next, Plain.Local, OnStdin,
         AllSent, Plain.TurnOf, CanMove, Timeval.Micros, Network.Run;
    Plain.HasTurn(n.a.peer);
    var before := CatchUp(n, 0);
    var m := Network.Run(n, before);
    RunKeepsInv(n, before);
    InvLocal(Untimed(m));
    RoomLeft(m.a.peer);
    var c :| CanMove(m.a.peer.board, c);
    var st := EntersNow(m, c);
    steps := before + [st];
    RunJoin(n, before, [st]);
    RunStep(m, st);
    EnteredIs(Untimed(m), c);
    StepLeavesB(m, st);
  }

  lemma EnteredIs(s: Plain.System, c: int)
    requires Plain.Local(s.a) && s.a.outcome.Playing? && s.a.phase.Turn? && CanMove(s.a.board, c)
    ensures |Plain.Next(s, Plain.Stdin(Plain.A, c)).a.history| == |s.a.history| + 1
  {
    hide WinnerOf;
  }

  lemma StepLeavesB(n: Pair, st: Step)
    requires st.Event? && st.side.A?
    ensures Next(n, st).b == n.b
  {
    hide Serve;
  }

  // B's outstanding move is in flight: A can accept it.
  lemma MoveCanBeRead(n: Pair) returns (steps: seq<Step>)
    requires Network.Inv(n) && Plain.Ahead(n.b.peer, n.a.peer) && n.a.peer.outcome.Playing?
    requires Sent(n.toA, n.a.peer.nextExpected)
    ensures InSequence(steps)
    ensures var r := Network.Run(n, steps);
      && r.a.peer.history == n.a.peer.history + [Move(Last(n.b.peer.history).column, PLAYER_2)]
      && r.b == n.b && Plain.Even(r.a.peer, r.b.peer)
  {
    hide Orderly, Next, Plain.Next, Plain.Inv, AllSent, Timeval.Micros, Network.Run;
    var before := CatchUp(n, 0);
    var m := Network.Run(n, before);
    var k :| 0 <= k < |n.toA| && n.toA[k].Column? && n.toA[k].sequence == n.a.peer.nextExpected;
    var drop := DropFirst(m, k);
    var d := Network.Run(m, drop);
    var st := ReadsNow(d);
    steps := before + drop + [st];
    RunJoin(n, before, drop);
    RunJoin(n, before + drop, [st]);
    RunStep(d, st);
    RunKeepsInv(n, before + drop);
    Accepts(Untimed(d));
    StepLeavesB(d, st);
  }

  // A's move is outstanding and A is playing: its timer is running, so A can send it.
  lemma MoveCanBeSent(n: Pair) returns (steps: seq<Step>)
    requires Network.Inv(n) && Plain.Ahead(n.a.peer, n.b.peer) && n.a.peer.outcome.Playing?
    ensures InSequence(steps)
    ensures var r := Network.Run(n, steps);
      r.b == n.b && Settled(n.a.peer, r.a.peer) && Sent(r.toB, n.b.peer.nextExpected)
  {
    hide Orderly, Next, Plain.Inv, Sent;
    var i := OutstandingTimer(n);
    var e := n.a.loop.queue[i];
    var wait := if e.stop.Micros() < n.a.loop.clock.Micros() then 0 else e.stop.Micros() - n.a.loop.clock.Micros() + 1;
    steps := CatchUp(n, wait);
    assert e in n.a.loop.queue && e.stop.Micros() < n.a.loop.clock.Micros() + wait;
  }

  lemma OutstandingTimer(n: Pair) returns (i: nat)
    requires Network.Inv(n) && Plain.Ahead(n.a.peer, n.b.peer)
    ensures i < |n.a.loop.queue| && n.a.loop.queue[i].timer == Retransmission(n.b.peer.nextExpected)
  {
    hide Orderly, Plain.Local, Plain.Queued, Plain.AllHonest, Plain.Kept;
    Plain.QueuedSafely(n.a.peer, n.b.peer, n.toA);
    OrderlyTimed(n.a, n.b, n.toA);
    Plain.Outstandings(n.a.peer, n.b.peer);
    i :| 0 <= i < |n.a.loop.queue| && n.a.loop.queue[i].timer == Retransmission(n.b.peer.nextExpected);
  }

  lemma MoveOfACanArrive(n: Pair) returns (steps: seq<Step>)
    requires Network.Inv(n) && Plain.Ahead(n.a.peer, n.b.peer) && n.b.peer.outcome.Playing?
    requires n.a.peer.outcome.Playing? || Sent(n.toB, n.b.peer.nextExpected)
    ensures InSequence(steps)
    ensures var r := Network.Run(n, steps);
      && r.b.peer.history == n.b.peer.history + [Move(Last(n.a.peer.history).column, PLAYER_2)]
      && r.a.peer.history == n.a.peer.history && Plain.Even(r.b.peer, r.a.peer)
  {
    hide Orderly, Plain.Inv, Sent, Network.Run;
    var send := [];
    assert Network.Run(n, []) == n by {
      RunNothing(n);
    }
    if !Sent(n.toB, n.b.peer.nextExpected) {
      send := MoveCanBeSent(n);
    }
    var m := Network.Run(n, send);
    RunKeepsInv(n, send);
    MirrorKeepsInv(m);
    var read := MoveCanBeRead(Mirror(m));
    SwapStepsRun(Mirror(m), read);
    steps := send + SwapSteps(read);
    RunJoin(n, send, SwapSteps(read));
  }

  // The pair as seen from one side.
  function From(n: Pair, side: Plain.Side): Pair {
    if side.A? then n else Mirror(n)
  }

  // Wherever it stands, the outstanding move of one side can still reach the other, as long
  // as the other is playing and the sender is, or the move is in flight. If all in flight
  // is lost, the sender's timer sends it again.
  lemma MoveCanArrive(n: Pair, side: Plain.Side) returns (steps: seq<Step>)
    requires Network.Inv(n)
    requires var m := From(n, side);
      && Plain.Ahead(m.a.peer, m.b.peer) && m.b.peer.outcome.Playing?
      && (m.a.peer.outcome.Playing? || Sent(m.toB, m.b.peer.nextExpected))
    ensures InSequence(steps)
    ensures var m, r := From(n, side), From(Network.Run(n, steps), side);
      && r.b.peer.history == m.b.peer.history + [Move(Last(m.a.peer.history).column, PLAYER_2)]
      && r.a.peer.history == m.a.peer.history && Plain.Even(r.b.peer, r.a.peer)
  {
    hide Network.Inv, Network.Run, Sent, Plain.Ahead, Plain.Even;
    MirrorKeepsInv(n);
    steps := MoveOfACanArrive(From(n, side));
    if side.B? {
      SwapStepsRun(Mirror(n), steps);
      steps := SwapSteps(steps);
    }
  }

  lemma RunNothing(n: Pair)
    ensures Network.Run(n, []) == n
  {
  }

  // ---------------------------------------------------------------- the boundary

  function Moves(n: Pair): nat {
    |n.a.peer.history| + |n.b.peer.history|
  }

  lemma DueAtA(n: Pair) returns (steps: seq<Step>)
    requires Network.Inv(n) && MoveDue(n.a.peer, n.b.peer, n.toB)
    ensures InSequence(steps) && Moves(Network.Run(n, steps)) == Moves(n) + 1
  {
    hide Network.Inv, Network.Run, Sent, Plain.TurnOf, Plain.Ahead;
    if Plain.TurnOf(n.a.peer) == 1 && |n.a.peer.history| < ROWS * COLS {
      steps := MoveCanBeMade(n);
    } else {
      steps := MoveOfACanArrive(n);
    }
  }

  lemma CanStillGoOn(n: Pair) returns (steps: seq<Step>)
    requires Network.Inv(n) && CanGoOn(Untimed(n))
    ensures InSequence(steps) && Moves(Network.Run(n, steps)) == Moves(n) + 1
  {
    hide Network.Inv, Network.Run, MoveDue;
    if MoveDue(n.a.peer, n.b.peer, n.toB) {
      steps := DueAtA(n);
    } else {
      MirrorKeepsInv(n);
      var mirrored := DueAtA(Mirror(n));
      SwapStepsRun(Mirror(n), mirrored);
      steps := SwapSteps(mirrored);
    }
  }

  // From every reachable state, some continuation makes or accepts another move if and
  // only if a move is due: a playing peer has the turn on a board that is not full, or a
  // move is outstanding to a playing peer whose sender is playing or that is in flight.
  // When there is one, there is one on a network that keeps the order of datagrams.
  lemma GoesOnExactly(x: Setup, steps: seq<Step>)
    ensures var n := Network.Run(Init(x), steps);
      && (CanGoOn(Untimed(n)) <==> exists more :: Moves(Network.Run(n, more)) > Moves(n))
      && (CanGoOn(Untimed(n)) ==> exists more :: InSequence(more) && Moves(Network.Run(n, more)) > Moves(n))
  {
    hide Orderly, Plain.Inv, Network.Run, CanGoOn, Init;
    var ts := RunsAreProtocolRuns(x, steps);
    var n := Network.Run(Init(x), steps);
    if CanGoOn(Untimed(n)) {
      var more := CanStillGoOn(n);
    } else {
      forall more ensures Moves(Network.Run(n, more)) == Moves(n) {
        var us := RunRefines(n, more);
        StuckForever(Untimed(n), us);
      }
    }
  }
}

// One running client: the handlers of client/src/client.c as the callbacks of the event
// loop of client/lib/cblib.c. The heartbeat is there with its timer; its datagrams are not.

module Process {
  import opened Words
  import opened Time
  import opened TimerQueue
  import opened FdTable
  import opened EventLoop
  import opened Board
  import opened Codec
  import opened Peer
  import opened Backoff

  const HEARTBEAT_INTERVAL: uint32 := 5000

  // The socket is the first descriptor the process opens.
  const SOCKET: Fd := 3
  const ON_STDIN: Handler := User(0, 0)
  const ON_DATAGRAM: Handler := User(1, 0)

  // The timer of the heartbeat, and one for each column message.
  datatype ClientTimer = Pulse | Retransmission(sequence: uint32)

  type ClientLoop = Loop<ClientTimer>

  datatype Process = Process(peer: Peer, loop: ClientLoop)

  // start_client, up to its call of handle_events.
  function StartClient(start: bool, clock: Instant, delay: nat): Process {
    Process(Begin(start), PerformAll(Boot(clock), Opening(delay)))
  }

  function Opening(delay: nat): seq<Op<ClientTimer>> {
    [Create(Pulse), Register(0, ON_STDIN), Register(SOCKET, ON_DATAGRAM), Start(Pulse, HEARTBEAT_INTERVAL, delay)]
  }

  // The callback table of a running client.
  function ClientTable(): Table {
    Table(EmptyTable().cb[0 := Slot(0, ON_STDIN)][1 := Slot(SOCKET, ON_DATAGRAM)], {0, SOCKET}, SOCKET)
  }

  // ---------------------------------------------------------------- callbacks

  // What a callback does: to its own state, to the network, and with timers. `delay` is
  // the time until start_timer reads the clock.
  datatype Response = Response(peer: Peer, sent: seq<Message>, ops: seq<Op<ClientTimer>>)

  // A timer's callback: send_heartbeat, or transmit_column_message with its message.
  function OnExpiry(p: Peer, t: ClientTimer, delay: nat): Response {
    match t
    case Pulse => Response(p, [], [Start(Pulse, HEARTBEAT_INTERVAL, delay)])
    case Retransmission(n) =>
      var k := FindUnAck(p.unacked, n);
      if k == |p.unacked| then Response(p, [], [])
      else
        var r := OnTimeout(p, k);
        Response(r.peer, r.sent, [Start(t, p.unacked[k].nextTimeout, delay)])
  }

  // on_stdin
  function OnInput(p: Peer, move: int, delay: nat): Response {
    var r := OnStdin(p, move);
    var t := Retransmission(p.nextSequence);
    Response(r.peer, r.sent, if r.sent == [] then [] else [Create(t), Start(t, DEFAULT_RETRANSMISSION_TIME, delay)])
  }

  // handle_udp_message with the callback for its message.
  function OnDatagram(p: Peer, m: Message): Response {
    match m
    case Column(sequence, column) =>
      var r := OnColumn(p, sequence, column);
      Response(r.peer, r.sent, [])
    case ColumnAck(sequence) =>
      var t := Retransmission(sequence);
      Response(OnAck(p, sequence), [],
               if FindUnAck(p.unacked, sequence) < |p.unacked| then [Stop(t), Delete(t)] else [])
    case _ => Response(p, [], [])
  }

  // ---------------------------------------------------------------- one call of handle_event

  // What the environment does during one call of handle_event.
  datatype Arrival =
    | Nothing(late: nat)
    | Something(stdin: Option<int>, datagram: Option<Message>, after: nat)

  datatype Round = Round(wait: nat, arrival: Arrival, delay: nat)

  // The first callback of a pass, in slot 0.
  function FirstPart(p: Peer, r: Round): Response {
    if r.arrival.Something? && r.arrival.stdin.Some? then OnInput(p, r.arrival.stdin.value, r.delay)
    else Response(p, [], [])
  }

  // Whether the pass gets to the datagram: a winning move exits before.
  predicate Reads(p: Peer, r: Round) {
    r.arrival.Something? && r.arrival.datagram.Some? && FirstPart(p, r).peer.outcome.Playing?
  }

  // The second callback of a pass, in slot 1.
  function SecondPart(p: Peer, r: Round): Response {
    var q := FirstPart(p, r).peer;
    if Reads(p, r) then OnDatagram(q, r.arrival.datagram.value) else Response(q, [], [])
  }

  // A descriptor the pass does not get to is as good as not ready.
  function WakeOf(p: Peer, r: Round): Wake {
    match r.arrival
    case Nothing(late) => TimedOut(late)
    case Something(stdin, _, after) =>
      Ready((if stdin.Some? then {0} else {}) + (if Reads(p, r) then {SOCKET} else {}), after)
  }

  function VerdictOf(c: Process, r: Round): Verdict {
    Decide(c.loop, r.wait, WakeOf(c.peer, r))
  }

  function ScriptOf(c: Process, r: Round): nat -> seq<Op<ClientTimer>> {
    if VerdictOf(c, r).Fires? then _ => OnExpiry(c.peer, c.loop.queue[0].timer, r.delay).ops
    else i => if i == 0 then FirstPart(c.peer, r).ops else if i == 1 then SecondPart(c.peer, r).ops else []
  }

  function InputOf(c: Process, r: Round): Input<ClientTimer> {
    Input(r.wait, WakeOf(c.peer, r), ScriptOf(c, r))
  }

  datatype Served = Served(process: Process, sent: seq<Message>, read: bool)

  function Serve(c: Process, r: Round): Served {
    var loop := HandleEvent(c.loop, InputOf(c, r));
    match VerdictOf(c, r)
    case Fires(_) =>
      var e := OnExpiry(c.peer, c.loop.queue[0].timer, r.delay);
      Served(Process(e.peer, loop), e.sent, false)
    case Sleeps(_) => Served(Process(c.peer, loop), [], false)
    case Passes(_, ready) =>
      var e, f := FirstPart(c.peer, r), SecondPart(c.peer, r);
      Served(Process(f.peer, loop), e.sent + f.sent, Reads(c.peer, r))
  }

  // A process that has exited does nothing any more.
  function Run(c: Process, rounds: seq<Round>): Process {
    if rounds == [] then c
    else
      var d := Run(c, rounds[..|rounds| - 1]);
      if d.peer.outcome.Playing? then Serve(d, rounds[|rounds| - 1]).process else d
  }

  // ---------------------------------------------------------------- the invariant

  // The board replays a legal game, next_sequence counts the moves made, and the list of
  // unacknowledged messages is in strictly increasing order below it.
  ghost predicate Sound(p: Peer) {
    && Game(p.history) && p.board == Replay(p.history)
    && p.nextSequence == |ColumnsOf(p.history, PLAYER_1)|
    && (p.outcome.Playing? ==> WinnerOf(p.board.field) == 0)
    && Increasing(p.unacked, p.nextSequence)
  }

  ghost predicate Increasing(us: seq<UnAck>, next: nat) {
    && (forall i, j :: 0 <= i < j < |us| ==> us[i].sequence < us[j].sequence)
    && (forall i :: 0 <= i < |us| ==> us[i].sequence < next)
  }

  // A timer the client has a use for: the heartbeat's, or that of a queued message.
  ghost predicate Wanted(us: seq<UnAck>, t: ClientTimer) {
    t.Pulse? || exists i :: 0 <= i < |us| && us[i].sequence == t.sequence
  }

  // The timers that exist are exactly those wanted, and all of them are running, except
  // one whose callback is about to start it. No timer has a past before its message.
  ghost predicate Clocked(us: seq<UnAck>, next: nat, s: ClientLoop, idle: Option<ClientTimer>) {
    && EventLoop.Inv(s) && s.table == ClientTable()
    && (forall t :: t in s.made <==> Wanted(us, t))
    && (forall t :: TimerQueue.Started(s.queue, t) <==> Wanted(us, t) && Some(t) != idle)
    && (forall t :: Punctual(s.log, t))
    && (forall n: uint32 :: n >= next ==> Unused(s.log, Retransmission(n)))
  }

  // Every start of the heartbeat's timer is for its interval, and those of a message's timer
  // are for the doubling timeouts.
  ghost predicate Punctual(log: Log<ClientTimer>, t: ClientTimer) {
    if t.Pulse? then
      forall i :: 0 <= i < |log| && log[i].Started? && log[i].timer == t ==> log[i].timeout == HEARTBEAT_INTERVAL
    else BacksOff(log, t)
  }

  ghost predicate Unused(log: Log<ClientTimer>, t: ClientTimer) {
    Starts(log, t) == [] && !WasStopped(log, t)
  }

  // The next timeout of each queued message is the one that follows its starts so far.
  ghost predicate InStep(us: seq<UnAck>, log: Log<ClientTimer>) {
    forall i :: 0 <= i < |us| ==>
      var t := Retransmission(us[i].sequence);
      us[i].nextTimeout == Timeout(|Starts(log, t)|) && !WasStopped(log, t)
  }

  ghost predicate Good(p: Peer, s: ClientLoop, idle: Option<ClientTimer>) {
    Sound(p) && Clocked(p.unacked, p.nextSequence, s, idle) && InStep(p.unacked, s.log)
  }

  ghost predicate Orderly(c: Process) {
    Good(c.peer, c.loop, None)
  }

  // ---------------------------------------------------------------- the peer's part

  lemma InputSound(p: Peer, move: int)
    requires Sound(p) && p.outcome.Playing?
    ensures Sound(OnStdin(p, move).peer)
    ensures OnStdin(p, move).sent != [] ==>
      && 0 <= move < COLS
      && OnStdin(p, move).peer.nextSequence == p.nextSequence + 1
      && OnStdin(p, move).peer.unacked
         == p.unacked + [UnAck(p.nextSequence, move, Doubled(DEFAULT_RETRANSMISSION_TIME))]
    ensures OnStdin(p, move).sent == [] ==> OnStdin(p, move).peer == p
  {
    hide Game, Replay, ColumnsOf, WinnerOf;
    if p.phase.Turn? && CanMove(p.board, move) {
      FewMoves(p.history);
      Extend(p.history, move, PLAYER_1);
    }
  }

  lemma FewMoves(h: History)
    requires Game(h)
    ensures |ColumnsOf(h, PLAYER_1)| <= ROWS * COLS
  {
    hide Game, Replay, ColumnsOf;
    PieceConservation(h);
  }

  lemma ColumnSound(p: Peer, sequence: uint32, column: uint16)
    requires Sound(p) && p.outcome.Playing?
    ensures var r := OnColumn(p, sequence, column).peer;
      Sound(r) && r.unacked == p.unacked && r.nextSequence == p.nextSequence
  {
    hide Game, Replay, ColumnsOf, WinnerOf;
    if sequence == p.nextExpected && CanMove(p.board, column) {
      Extend(p.history, column, PLAYER_2);
    }
  }

  // ---------------------------------------------------------------- one operation

  // What an event that does not concern t leaves.
  lemma Unconcerned(log: Log<ClientTimer>, e: EventLoop.Event<ClientTimer>, t: ClientTimer)
    requires (e.Started? || e.Stopped?) ==> e.timer != t
    ensures Starts(log + [e], t) == Starts(log, t)
    ensures WasStopped(log + [e], t) <==> WasStopped(log, t)
    ensures Punctual(log + [e], t) <==> Punctual(log, t)
  {
    hide Starts, WasStopped, BacksOff;
    OneMore(log, e, t);
  }

  lemma StaysPunctual(log: Log<ClientTimer>, e: EventLoop.Event<ClientTimer>, t: ClientTimer)
    requires Punctual(log, t)
    requires e.Started? && e.timer == t ==>
      if t.Pulse? then e.timeout == HEARTBEAT_INTERVAL
      else e.timeout == Timeout(|Starts(log, t)|) && !WasStopped(log, t)
    ensures Punctual(log + [e], t)
  {
    hide Starts, WasStopped, BacksOff;
    OneMore(log, e, t);
  }

  // The timer that is idle is started, for the timeout that is due.
  lemma StartClocked(us: seq<UnAck>, next: nat, s: ClientLoop, t: ClientTimer, timeout: uint32, delay: nat)
    requires Clocked(us, next, s, Some(t)) && Wanted(us, t)
    requires t.Pulse? ==> timeout == HEARTBEAT_INTERVAL
    requires t.Retransmission? ==> t.sequence < next && !WasStopped(s.log, t) && timeout == Timeout(|Starts(s.log, t)|)
    ensures var r := Perform(s, Start(t, timeout, delay));
      && Clocked(us, next, r, None)
      && (forall u :: Starts(r.log, u) == Starts(s.log, u) + if u == t then [r.clock] else [])
      && (forall u :: WasStopped(r.log, u) <==> WasStopped(s.log, u))
  {
    hide EventLoop.Inv, TimerQueue.Started, StartSpec, Starts, WasStopped, Punctual, Wanted;
    var op := Op.Start(t, timeout, delay);
    var r := Perform(s, op);
    PerformKeeps(s, op);
    InvQueue(s);
    forall u ensures TimerQueue.Started(r.queue, u) <==> TimerQueue.Started(s.queue, u) || u == t {
      StartStarts(s.queue, t, timeout, r.clock, u);
    }
    forall u
      ensures Starts(r.log, u) == Starts(s.log, u) + if u == t then [r.clock] else []
      ensures WasStopped(r.log, u) <==> WasStopped(s.log, u)
      ensures Punctual(r.log, u)
    {
      OneMore(s.log, EventLoop.Started(t, r.clock, timeout), u);
      StaysPunctual(s.log, EventLoop.Started(t, r.clock, timeout), u);
    }
  }

  lemma InvQueue(s: ClientLoop)
    requires EventLoop.Inv(s)
    ensures Sorted(s.queue) && Distinct(s.queue)
  {
  }

  // transmit_column_message starts the timer of the k-th message and doubles its timeout.
  lemma TransmitClocked(us: seq<UnAck>, next: nat, s: ClientLoop, k: nat, delay: nat)
    requires Increasing(us, next) && k < |us|
    requires Clocked(us, next, s, Some(Retransmission(us[k].sequence))) && InStep(us, s.log)
    ensures var vs := us[k := us[k].(nextTimeout := Doubled(us[k].nextTimeout))];
      var r := Perform(s, Start(Retransmission(us[k].sequence), us[k].nextTimeout, delay));
      Clocked(vs, next, r, None) && InStep(vs, r.log)
  {
    hide Clocked, Perform, Starts, WasStopped;
    var t := Retransmission(us[k].sequence);
    StartClocked(us, next, s, t, us[k].nextTimeout, delay);
    var vs := us[k := us[k].(nextTimeout := Doubled(us[k].nextTimeout))];
    SameWanted(us, vs, next, Perform(s, Start(t, us[k].nextTimeout, delay)), None);
  }

  lemma SameWanted(us: seq<UnAck>, vs: seq<UnAck>, next: nat, s: ClientLoop, idle: Option<ClientTimer>)
    requires Clocked(us, next, s, idle) && |us| == |vs|
    requires forall i :: 0 <= i < |us| ==> us[i].sequence == vs[i].sequence
    ensures Clocked(vs, next, s, idle)
  {
    hide EventLoop.Inv, TimerQueue.Started, Punctual, Unused;
    assert forall t :: Wanted(us, t) <==> Wanted(vs, t);
  }

  // send_column_message queues a message whose timer has just been created.
  lemma CreateClocked(us: seq<UnAck>, next: uint32, s: ClientLoop, column: uint16)
    requires Clocked(us, next, s, None) && Increasing(us, next) && InStep(us, s.log)
    ensures var vs := us + [UnAck(next, column, DEFAULT_RETRANSMISSION_TIME)];
      var t := Retransmission(next);
      var r := Perform(s, Create(t));
      && Allowed(s, Op.Create(t))
      && Increasing(vs, next + 1) && Clocked(vs, next + 1, r, Some(t)) && InStep(vs, r.log)
  {
    hide EventLoop.Inv, TimerQueue.Started, Punctual, Starts, WasStopped;
    var vs := us + [UnAck(next, column, DEFAULT_RETRANSMISSION_TIME)];
    var t := Retransmission(next);
    PerformKeeps(s, Op.Create(t));
    assert !Wanted(us, t);
    assert vs[|us|].sequence == next;
    forall u ensures Wanted(vs, u) <==> Wanted(us, u) || u == t {
      if u.Retransmission? && Wanted(us, u) {
        var i :| 0 <= i < |us| && us[i].sequence == u.sequence;
        assert vs[i].sequence == u.sequence;
      }
    }
    assert Unused(s.log, t);
  }

  // on_column_ack_message stops and deletes the timer of the message it unlinks.
  lemma ForgetClocked(us: seq<UnAck>, next: nat, s: ClientLoop, k: nat)
    requires Clocked(us, next, s, None) && Increasing(us, next) && InStep(us, s.log) && k < |us|
    ensures var vs := us[..k] + us[k + 1..];
      var t := Retransmission(us[k].sequence);
      var r := PerformAll(s, [Stop(t), Delete(t)]);
      && AllAllowed(s, [Stop(t), Delete(t)])
      && Increasing(vs, next) && Clocked(vs, next, r, None) && InStep(vs, r.log)
  {
    hide EventLoop.Inv, TimerQueue.Started, Punctual, Starts, WasStopped, Remove;
    var vs := us[..k] + us[k + 1..];
    var t := Retransmission(us[k].sequence);
    var m := Perform(s, Op.Stop(t));
    var r := Perform(m, Op.Delete(t));
    PerformKeeps(s, Op.Stop(t));
    PerformKeeps(m, Op.Delete(t));
    InvQueue(s);
    WantedLess(us, next, k);
    TwoOps(s, Op.Stop(t), Op.Delete(t));
    forall u
      ensures TimerQueue.Started(m.queue, u) <==> TimerQueue.Started(s.queue, u) && u != t
      ensures u != t ==> Starts(r.log, u) == Starts(s.log, u) && (WasStopped(r.log, u) <==> WasStopped(s.log, u))
      ensures Punctual(r.log, u)
    {
      StopStops(s.queue, t, u);
      OneMore(s.log, EventLoop.Stopped(t), u);
      StaysPunctual(s.log, EventLoop.Stopped(t), u);
    }
  }

  lemma WantedLess(us: seq<UnAck>, next: nat, k: nat)
    requires Increasing(us, next) && k < |us|
    ensures var vs := us[..k] + us[k + 1..]; var t := Retransmission(us[k].sequence);
      && Increasing(vs, next) && Wanted(us, t)
      && (forall u :: Wanted(vs, u) <==> Wanted(us, u) && u != t)
      && (forall i :: 0 <= i < |vs| ==> vs[i] == us[if i < k then i else i + 1] && vs[i].sequence != us[k].sequence)
  {
    var vs := us[..k] + us[k + 1..];
    assert forall i :: 0 <= i < |vs| ==> vs[i] == us[if i < k then i else i + 1];
    forall u: ClientTimer | u.Retransmission? && Wanted(us, u) && u.sequence != us[k].sequence ensures Wanted(vs, u) {
      var i :| 0 <= i < |us| && us[i].sequence == u.sequence;
      assert vs[if i < k then i else i - 1].sequence == u.sequence;
    }
  }

  lemma TwoOps(s: ClientLoop, x: Op<ClientTimer>, y: Op<ClientTimer>)
    ensures PerformAll(s, [x, y]) == Perform(Perform(s, x), y)
    ensures AllAllowed(s, [x, y]) <==> Allowed(s, x) && Allowed(Perform(s, x), y)
  {
    hide Perform, Allowed;
    OneOp(Perform(s, x), y);
    assert [x, y][1..] == [y];
  }

  lemma OneOp(s: ClientLoop, x: Op<ClientTimer>)
    ensures PerformAll(s, [x]) == Perform(s, x)
    ensures AllAllowed(s, [x]) <==> Allowed(s, x)
  {
    hide Perform, Allowed;
    assert [x][1..] == [];
  }

  // ---------------------------------------------------------------- one callback

  // An event that neither starts nor stops a timer leaves the counts of all timers.
  lemma EventKeepsStep(us: seq<UnAck>, s: ClientLoop, e: EventLoop.Event<ClientTimer>)
    requires !e.Started? && !e.Stopped? && InStep(us, s.log)
    requires forall t :: Punctual(s.log, t)
    ensures InStep(us, s.log + [e])
    ensures forall t :: Punctual(s.log + [e], t)
    ensures forall t :: Unused(s.log, t) ==> Unused(s.log + [e], t)
  {
    hide Starts, WasStopped, Punctual;
    forall t
      ensures Starts(s.log + [e], t) == Starts(s.log, t)
      ensures WasStopped(s.log + [e], t) <==> WasStopped(s.log, t)
      ensures Punctual(s.log + [e], t) <==> Punctual(s.log, t)
    {
      Unconcerned(s.log, e, t);
    }
  }

  // handle_event stops the first timer before it calls its callback.
  lemma ExpireGood(p: Peer, s: ClientLoop, at: Instant)
    requires Good(p, s, None) && s.queue != []
    requires s.queue[0].stop.Micros() <= at.Micros() && s.clock.Micros() <= at.Micros()
    ensures Good(p, EventLoop.Expire(s, at), Some(s.queue[0].timer)) && Wanted(p.unacked, s.queue[0].timer)
  {
    hide Sound, EventLoop.Inv, TimerQueue.Started, Wanted, Punctual, InStep, Remove, Timeval.Micros, Unused;
    var head := s.queue[0];
    FireKeeps(s, at);
    InvQueue(s);
    HeadStarted(s.queue);
    EventKeepsStep(p.unacked, s, Fired(head.timer, head.stop, at));
    forall t
      ensures TimerQueue.Started(EventLoop.Expire(s, at).queue, t)
              <==> TimerQueue.Started(s.queue, t) && t != head.timer
    {
      StopStops(s.queue, head.timer, t);
    }
  }

  lemma HeadStarted(q: Queue<ClientTimer>)
    requires q != []
    ensures TimerQueue.Started(q, q[0].timer)
  {
  }

  lemma CallGood(p: Peer, s: ClientLoop, i: nat)
    requires Good(p, s, None) && i < FD_SETSIZE && s.table.cb[i].fd >= 0
    ensures Good(p, Call(s, i), None)
  {
    hide Sound, EventLoop.Inv, TimerQueue.Started, Wanted, Punctual, InStep, Unused;
    CallKeeps(s, i);
    EventKeepsStep(p.unacked, s, Called(s.table.cb[i].fd, s.table.cb[i].callback));
  }

  lemma AdvanceGood(p: Peer, s: ClientLoop, at: Instant)
    requires Good(p, s, None) && s.clock.Micros() <= at.Micros()
    ensures Good(p, s.(clock := at), None)
  {
    hide Sound, EventLoop.Inv, TimerQueue.Started, Wanted, Punctual, InStep, Unused, Timeval.Micros;
    AdvanceKeeps(s, at);
  }

  // A timer's callback finds its message, and leaves all timers running again.
  lemma ExpiryGood(p: Peer, s: ClientLoop, t: ClientTimer, delay: nat)
    requires Good(p, s, Some(t)) && Wanted(p.unacked, t)
    ensures var e := OnExpiry(p, t, delay);
      && AllAllowed(s, e.ops) && Good(e.peer, PerformAll(s, e.ops), None)
    ensures t.Retransmission? ==> FindUnAck(p.unacked, t.sequence) < |p.unacked|
  {
    hide Game, Replay, WinnerOf, ColumnsOf, EventLoop.Inv, TimerQueue.Started, Punctual, Starts, WasStopped, Perform;
    match t
    case Pulse =>
      OneOp(s, Op.Start(t, HEARTBEAT_INTERVAL, delay));
      StartClocked(p.unacked, p.nextSequence, s, t, HEARTBEAT_INTERVAL, delay);
    case Retransmission(n) =>
      var k := FindUnAck(p.unacked, n);
      assert k < |p.unacked| && p.unacked[k].sequence == n;
      OneOp(s, Op.Start(t, p.unacked[k].nextTimeout, delay));
      TransmitClocked(p.unacked, p.nextSequence, s, k, delay);
  }

  lemma InputGood(p: Peer, s: ClientLoop, move: int, delay: nat)
    requires Good(p, s, None) && p.outcome.Playing?
    ensures var e := OnInput(p, move, delay);
      && AllAllowed(s, e.ops) && Good(e.peer, PerformAll(s, e.ops), None)
  {
    hide Clocked, Sound, InStep, OnStdin, Perform, Allowed;
    InputSound(p, move);
    if OnStdin(p, move).sent != [] {
      SoundList(p);
      MoveClocked(p, s, move, delay);
    }
  }

  lemma SoundList(p: Peer)
    requires Sound(p)
    ensures Increasing(p.unacked, p.nextSequence)
  {
  }

  lemma MoveClocked(p: Peer, s: ClientLoop, column: uint16, delay: nat)
    requires Clocked(p.unacked, p.nextSequence, s, None) && InStep(p.unacked, s.log)
    requires Increasing(p.unacked, p.nextSequence)
    ensures var t := Retransmission(p.nextSequence);
      var ops := [Create(t), Start(t, DEFAULT_RETRANSMISSION_TIME, delay)];
      var vs := p.unacked + [UnAck(p.nextSequence, column, Doubled(DEFAULT_RETRANSMISSION_TIME))];
      && AllAllowed(s, ops)
      && Clocked(vs, p.nextSequence + 1, PerformAll(s, ops), None) && InStep(vs, PerformAll(s, ops).log)
  {
    hide Clocked, InStep, Increasing, Perform;
    var us := p.unacked;
    var t := Retransmission(p.nextSequence);
    var u := UnAck(p.nextSequence, column, DEFAULT_RETRANSMISSION_TIME);
    var m := Perform(s, Op.Create(t));
    CreateClocked(us, p.nextSequence, s, column);
    TransmitClocked(us + [u], p.nextSequence + 1, m, |us|, delay);
    TwoOps(s, Op.Create(t), Op.Start(t, DEFAULT_RETRANSMISSION_TIME, delay));
    CreatedAllowed(s, t, delay);
    var v := u.(nextTimeout := Doubled(u.nextTimeout));
    assert (us + [u])[|us| := v] == us + [v];
  }

  lemma CreatedAllowed(s: ClientLoop, t: ClientTimer, delay: nat)
    ensures Allowed(Perform(s, Op.Create(t)), Op.Start(t, DEFAULT_RETRANSMISSION_TIME, delay))
  {
  }

  lemma DatagramGood(p: Peer, s: ClientLoop, m: Message)
    requires Good(p, s, None) && p.outcome.Playing?
    ensures var e := OnDatagram(p, m);
      && AllAllowed(s, e.ops) && Good(e.peer, PerformAll(s, e.ops), None)
  {
    hide Clocked, InStep, OnColumn, Perform, Allowed, Game, Replay, WinnerOf, ColumnsOf;
    match m
    case Column(sequence, column) => ColumnSound(p, sequence, column);
    case ColumnAck(sequence) =>
      var k := FindUnAck(p.unacked, sequence);
      if k < |p.unacked| {
        ForgetClocked(p.unacked, p.nextSequence, s, k);
      }
    case _ =>
  }

  // ---------------------------------------------------------------- one pass

  lemma IdleSlots(s: ClientLoop, ready: set<int>, script: nat -> seq<Op<ClientTimer>>, i: nat)
    requires s.table == ClientTable() && 2 <= i <= FD_SETSIZE
    ensures Dispatch(s, ready, script, i) == s && PassAllowed(s, ready, script, i)
    decreases FD_SETSIZE - i
  {
    if i < FD_SETSIZE {
      IdleSlots(s, ready, script, i + 1);
    }
  }

  function Slotted(s: ClientLoop, ready: set<int>, i: nat, fd: int, ops: seq<Op<ClientTimer>>): ClientLoop
    requires i < FD_SETSIZE
  {
    if fd in ready then CallSlot(s, i, ops) else s
  }

  lemma SlotStep(s: ClientLoop, ready: set<int>, script: nat -> seq<Op<ClientTimer>>, i: nat, fd: int)
    requires s.table == ClientTable() && i < 2 && fd == if i == 0 then 0 else SOCKET
    requires fd in ready ==> AllAllowed(Call(s, i), script(i))
    ensures Dispatch(s, ready, script, i) == Dispatch(Slotted(s, ready, i, fd, script(i)), ready, script, i + 1)
    ensures PassAllowed(Slotted(s, ready, i, fd, script(i)), ready, script, i + 1) ==> PassAllowed(s, ready, script, i)
  {
    hide CallSlot, AllAllowed;
  }

  // The callback in one slot, called if its descriptor is ready.
  lemma SlotGood(p: Peer, s: ClientLoop, ready: set<int>, i: nat, fd: int, e: Response)
    requires Good(p, s, None) && i < 2 && fd == if i == 0 then 0 else SOCKET
    requires fd in ready ==> AllAllowed(Call(s, i), e.ops) && Good(e.peer, PerformAll(Call(s, i), e.ops), None)
    requires fd !in ready ==> e.peer == p
    ensures var r := Slotted(s, ready, i, fd, e.ops); Good(e.peer, r, None) && r.table == ClientTable()
  {
    hide Sound, EventLoop.Inv, TimerQueue.Started, Wanted, Punctual, InStep, Unused, Call, PerformAll, AllAllowed;
  }

  lemma ClientSlots(s: ClientLoop)
    requires s.table == ClientTable()
    ensures s.table.cb[0].fd == 0 && s.table.cb[1].fd == SOCKET && Asked(s.table) == {0, SOCKET}
  {
  }

  lemma GoodTable(p: Peer, s: ClientLoop)
    requires Good(p, s, None)
    ensures s.table == ClientTable()
  {
    hide Sound, EventLoop.Inv, TimerQueue.Started, Wanted, Punctual, InStep, Unused;
  }

  // A pass calls on_stdin and then the datagram's callback, as far as they are ready.
  lemma PassGood(p: Peer, r: Round, s: ClientLoop, script: nat -> seq<Op<ClientTimer>>)
    requires Good(p, s, None) && p.outcome.Playing? && r.arrival.Something?
    requires script(0) == FirstPart(p, r).ops && script(1) == SecondPart(p, r).ops
    ensures var ready := WakeOf(p, r).fds;
      && PassAllowed(s, ready, script, 0)
      && Good(SecondPart(p, r).peer, Dispatch(s, ready, script, 0), None)
  {
    hide Good, Dispatch, PassAllowed, Call, OnInput, OnDatagram, Slotted, AllAllowed, PerformAll;
    var e, f, ready := FirstPart(p, r), SecondPart(p, r), WakeOf(p, r).fds;
    GoodTable(p, s);
    ClientSlots(s);
    if 0 in ready {
      CallGood(p, s, 0);
      InputGood(p, Call(s, 0), r.arrival.stdin.value, r.delay);
    }
    SlotGood(p, s, ready, 0, 0, e);
    SlotStep(s, ready, script, 0, 0);
    var m := Slotted(s, ready, 0, 0, e.ops);
    if SOCKET in ready {
      CallGood(e.peer, m, 1);
      DatagramGood(e.peer, Call(m, 1), r.arrival.datagram.value);
    }
    SlotGood(e.peer, m, ready, 1, SOCKET, f);
    SlotStep(m, ready, script, 1, SOCKET);
    IdleSlots(Slotted(m, ready, 1, SOCKET, f.ops), ready, script, 2);
  }

  // ---------------------------------------------------------------- every run

  // One call of handle_event keeps the invariant, and the client uses its timers as it
  // may: none that does not exist, and none deleted while it runs.
  lemma ServeOrderly(c: Process, r: Round)
    requires Orderly(c) && c.peer.outcome.Playing?
    ensures Orderly(Serve(c, r).process) && InputAllowed(c.loop, InputOf(c, r))
  {
    hide Good, Decide, Dispatch, PassAllowed, AllAllowed, PerformAll, EventLoop.Expire, OnExpiry;
    var p, s := c.peer, c.loop;
    match VerdictOf(c, r)
    case Fires(at) =>
      ExpireGood(p, s, at);
      ExpiryGood(p, EventLoop.Expire(s, at), s.queue[0].timer, r.delay);
    case Sleeps(at) => AdvanceGood(p, s, at);
    case Passes(at, ready) =>
      AdvanceGood(p, s, at);
      PassReady(c, r);
      PassGood(p, r, s.(clock := at), ScriptOf(c, r));
  }

  lemma PassReady(c: Process, r: Round)
    requires Orderly(c) && VerdictOf(c, r).Passes?
    ensures r.arrival.Something? && VerdictOf(c, r).ready == WakeOf(c.peer, r).fds
  {
    GoodTable(c.peer, c.loop);
    ClientSlots(c.loop);
  }

  lemma OpeningTable()
    ensures FdTable.Register(FdTable.Register(EmptyTable(), 0, ON_STDIN), SOCKET, ON_DATAGRAM) == ClientTable()
  {
    hide Find;
    FindFirst(EmptyTable().cb, 0);
    FindFirst(EmptyTable().cb[0 := Slot(0, ON_STDIN)], 1);
  }

  // Only the first n slots are taken, by other descriptors.
  lemma FindFirst(cb: Slots, n: nat)
    requires n < 2 && (n == 1 ==> cb[0].fd == 0) && forall i :: n <= i < FD_SETSIZE ==> cb[i].fd == -1
    ensures Find(cb, -1, 0) == n && Find(cb, if n == 0 then 0 else SOCKET, 0) == FD_SETSIZE
  {
    hide Find;
    assert cb[n].fd == -1;
  }

  // Before its heartbeat timer is first started.
  function Opened(clock: Instant): ClientLoop {
    Loop({Pulse}, [], ClientTable(), clock, [Registered(0, ON_STDIN), Registered(SOCKET, ON_DATAGRAM)])
  }

  lemma OpeningIs(clock: Instant, delay: nat)
    ensures PerformAll(Boot(clock), Opening(delay))
      == Perform(Opened(clock), Op.Start(Pulse, HEARTBEAT_INTERVAL, delay))
    ensures EventLoop.Inv(Opened(clock)) && AllAllowed(Boot(clock), Opening(delay))
  {
    hide FdTable.Register, EmptyTable, ClientTable, EventLoop.Inv;
    OpeningTable();
    var ops := Opening(delay);
    var s: ClientLoop := Boot(clock);
    var s1, s2, s3 := Perform(s, ops[0]), Perform(Perform(s, ops[0]), ops[1]), Opened(clock);
    BootOk<ClientTimer>(clock);
    PerformKeeps(s, ops[0]);
    PerformKeeps(s1, ops[1]);
    PerformKeeps(s2, ops[2]);
    assert s3 == Perform(s2, ops[2]);
    assert Allowed(s, ops[0]) && Allowed(s1, ops[1]) && Allowed(s2, ops[2]) && Allowed(s3, ops[3]);
    hide Perform, Allowed;
    TwoOps(s2, ops[2], ops[3]);
    assert ops[1..][1..] == [ops[2], ops[3]];
    assert PerformAll(s1, ops[1..]) == PerformAll(s2, [ops[2], ops[3]]);
  }

  lemma StartOrderly(start: bool, clock: Instant, delay: nat)
    ensures Orderly(StartClient(start, clock, delay))
  {
    hide Perform, WinnerOf, EventLoop.Inv;
    OpeningIs(clock, delay);
    EmptyHasNoWinner();
    var s := Opened(clock);
    assert Clocked([], 0, s, Some(Pulse)) by {
      forall t ensures Punctual(s.log, t) && Unused(s.log, t) {
        NothingUsed(s.log, t);
      }
    }
    StartClocked([], 0, s, Pulse, HEARTBEAT_INTERVAL, delay);
  }

  lemma {:induction false} NothingUsed(log: Log<ClientTimer>, t: ClientTimer)
    requires forall i :: 0 <= i < |log| ==> log[i].Registered?
    ensures Punctual(log, t) && Unused(log, t)
  {
    if log != [] {
      NothingUsed(log[..|log| - 1], t);
    }
  }

  lemma {:induction false} RunOrderly(start: bool, clock: Instant, delay: nat, rounds: seq<Round>)
    ensures Orderly(Run(StartClient(start, clock, delay), rounds))
  {
    hide Orderly, Serve, StartClient;
    if rounds == [] {
      StartOrderly(start, clock, delay);
    } else {
      var prefix := rounds[..|rounds| - 1];
      RunOrderly(start, clock, delay, prefix);
      var d := Run(StartClient(start, clock, delay), prefix);
      if d.peer.outcome.Playing? {
        ServeOrderly(d, rounds[|rounds| - 1]);
      }
    }
  }

  // ---------------------------------------------------------------- a timer expires

  lemma FiresFacts(c: Process, r: Round)
    requires VerdictOf(c, r).Fires?
    ensures c.loop.queue != [] && c.loop.queue[0].stop.Micros() <= VerdictOf(c, r).at.Micros()
    ensures c.loop.clock.Micros() <= VerdictOf(c, r).at.Micros()
  {
  }

  // The message of a timer that expires is in the list.
  lemma ExpiryFinds(c: Process, r: Round)
    requires Orderly(c) && VerdictOf(c, r).Fires?
    ensures c.loop.queue != []
    ensures var t := c.loop.queue[0].timer;
      t.Retransmission? ==> FindUnAck(c.peer.unacked, t.sequence) < |c.peer.unacked|
  {
    hide Good, VerdictOf, OnExpiry, EventLoop.Expire;
    FiresFacts(c, r);
    ExpireGood(c.peer, c.loop, VerdictOf(c, r).at);
    ExpiryGood(c.peer, EventLoop.Expire(c.loop, VerdictOf(c, r).at), c.loop.queue[0].timer, r.delay);
  }

  // The firing of a message's timer sends the message again and is answered by one start
  // of the timer, for the timeout that follows its starts so far.
  lemma FiringTransmits(c: Process, r: Round, n: uint32)
    requires Orderly(c) && VerdictOf(c, r).Fires? && c.loop.queue[0].timer == Retransmission(n)
    ensures var k := FindUnAck(c.peer.unacked, n);
      k < |c.peer.unacked| && Serve(c, r).sent == [Column(n, c.peer.unacked[k].column)]
    ensures var head, at, log := c.loop.queue[0], VerdictOf(c, r).at, c.loop.log;
      Serve(c, r).process.loop.log
      == log + [Fired(head.timer, head.stop, at),
                EventLoop.Started(head.timer, Later(at, r.delay), Timeout(|Starts(log, head.timer)|))]
  {
    hide Sound, Increasing, EventLoop.Inv, Wanted, Starts, Timeout, Decide, WakeOf, Remove, Punctual;
    var s, t, at := c.loop, c.loop.queue[0].timer, VerdictOf(c, r).at;
    ExpiryFinds(c, r);
    FiresFacts(c, r);
    ExpireGood(c.peer, s, at);
    var x := EventLoop.Expire(s, at);
    OneOp(x, OnExpiry(c.peer, t, r.delay).ops[0]);
  }

  // ---------------------------------------------------------------- what holds in every run

  // In every run, whatever is entered and whatever datagrams arrive, the k-th
  // retransmission of a message, for k up to 23, comes at least 1000 * (2^k - 1)
  // milliseconds after its timer was first started.
  lemma RetransmissionsBackOff(start: bool, clock: Instant, delay: nat, rounds: seq<Round>, n: uint32, j: nat, k: nat)
    requires var log := Run(StartClient(start, clock, delay), rounds).loop.log;
      j < |log| && log[j].Fired? && log[j].timer == Retransmission(n)
      && k == Firings(log[..j], Retransmission(n)) + 1 <= 23
    ensures var log := Run(StartClient(start, clock, delay), rounds).loop.log;
      var started := Starts(log, Retransmission(n));
      |started| >= k && log[j].at.Micros() >= started[0].Micros() + 1000 * 1000 * (Pow2(k) - 1)
  {
    RunOrderly(start, clock, delay, rounds);
    hide Run, Sound, InStep, TimerQueue.Started, Wanted, Timeval.Micros;
    var log := Run(StartClient(start, clock, delay), rounds).loop.log;
    assert Punctual(log, Retransmission(n));
    FiringsBackOff(log, Retransmission(n), j, k);
  }

  // In every run heartbeats are at least their interval apart.
  lemma HeartbeatsApart(start: bool, clock: Instant, delay: nat, rounds: seq<Round>, i: nat, j: nat)
    requires var log := Run(StartClient(start, clock, delay), rounds).loop.log;
      && i < j < |log| && log[i].Fired? && log[j].Fired? && log[i].timer == log[j].timer == Pulse
    ensures var log := Run(StartClient(start, clock, delay), rounds).loop.log;
      log[j].at.Micros() >= log[i].at.Micros() + 1000 * HEARTBEAT_INTERVAL
  {
    RunOrderly(start, clock, delay, rounds);
    hide Run, Sound, InStep, TimerQueue.Started, Wanted, Timeval.Micros;
    var log := Run(StartClient(start, clock, delay), rounds).loop.log;
    assert Punctual(log, Pulse);
    var k := FiresOncePerStart(log, i, j);
    TimeIsMonotone(log, i, k);
    assert Lawful(log[..j], log[j]);
  }

  // In every run of a client that has not exited, a message is unacknowledged exactly
  // when its timer is running, and the heartbeat's timer is.
  lemma TimersRun(start: bool, clock: Instant, delay: nat, rounds: seq<Round>)
    ensures var c := Run(StartClient(start, clock, delay), rounds);
      && TimerQueue.Started(c.loop.queue, Pulse)
      && (forall n: uint32 :: TimerQueue.Started(c.loop.queue, Retransmission(n))
                              <==> exists i :: 0 <= i < |c.peer.unacked| && c.peer.unacked[i].sequence == n)
      && Distinct(c.loop.queue) && Sorted(c.loop.queue)
  {
    RunOrderly(start, clock, delay, rounds);
    hide Run, Sound, InStep, TimerQueue.Started;
  }

  // ---------------------------------------------------------------- on the heap

  // handle_events on the dispatcher of the heap, whose list the callbacks' timers are
  // created in, started, stopped and deleted while they run.
  method HandleEvents(d: Dispatcher<ClientTimer>, c: Process, rounds: seq<Round>) returns (e: Process)
    requires d.Valid() && d.View() == c.loop && Orderly(c)
    modifies d, d.timers, d.timers.all, d.fds, d.fds.cb
    ensures e == Run(c, rounds) && Orderly(e)
    ensures d.Valid() && d.View() == e.loop && fresh(d.timers.all - old(d.timers.all))
  {
    hide Orderly, Serve, InputOf, TimerList.Valid, Bound;
    e := c;
    for i := 0 to |rounds|
      invariant e == Run(c, rounds[..i]) && Orderly(e)
      invariant d.Valid() && d.View() == e.loop && fresh(d.timers.all - old(d.timers.all))
    {
      assert rounds[..i + 1][..i] == rounds[..i];
      if e.peer.outcome.Playing? {
        ServeOrderly(e, rounds[i]);
        d.Handle(InputOf(e, rounds[i]));
        ServeLoop(e, rounds[i]);
        e := Serve(e, rounds[i]).process;
      }
    }
    assert rounds[..|rounds|] == rounds;
  }

  lemma ServeLoop(c: Process, r: Round)
    ensures Serve(c, r).process.loop == HandleEvent(c.loop, InputOf(c, r))
  {
    hide HandleEvent, InputOf, Decide;
  }
}

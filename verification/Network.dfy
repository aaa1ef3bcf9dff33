// Two running clients, each on its own event loop with its own clock and timers, and the
// datagrams between them. Every run of them is a run of the two-peer protocol in which a
// message is retransmitted only when its timer expires.

module Network {
  import opened Words
  import opened Time
  import opened TimerQueue
  import opened EventLoop
  import opened Board
  import opened Codec
  import opened Peer
  import opened Process
  import Plain = TwoPeers
  import opened Conservation

  datatype Pair = Pair(a: Process, b: Process, toA: seq<Message>, toB: seq<Message>)

  function Mirror(n: Pair): Pair {
    Pair(n.b, n.a, n.toB, n.toA)
  }

  // How the two clients are started.
  datatype Setup = Setup(aStarts: bool, clockA: Instant, clockB: Instant, delayA: nat, delayB: nat)

  function Init(x: Setup): Pair {
    Pair(StartClient(x.aStarts, x.clockA, x.delayA), StartClient(!x.aStarts, x.clockB, x.delayB), [], [])
  }

  // How a call of handle_event goes on: select waits for its timeout, or it returns with
  // input from the player, or when a datagram has arrived, or both.
  datatype Wakeup = Elapses(late: nat) | Arrives(stdin: Option<int>, arrived: bool, after: nat)

  // One client calls handle_event, or the network loses, duplicates or reorders.
  datatype Step =
    | Event(side: Plain.Side, wait: nat, wakeup: Wakeup, delay: nat)
    | Tamper(step: Plain.Step)

  function RoundOf(st: Step, toP: seq<Message>): Round
    requires st.Event?
  {
    var arrival := match st.wakeup
      case Elapses(late) => Nothing(late)
      case Arrives(stdin, arrived, after) =>
        Something(stdin, if arrived && toP != [] then Some(toP[0]) else None, after);
    Round(st.wait, arrival, st.delay)
  }

  function EventA(n: Pair, st: Step): Pair
    requires st.Event?
  {
    if !n.a.peer.outcome.Playing? then n
    else
      var h := Serve(n.a, RoundOf(st, n.toA));
      Pair(h.process, n.b, if h.read then n.toA[1..] else n.toA, n.toB + h.sent)
  }

  function Next(n: Pair, st: Step): Pair {
    match st
    case Event(side, _, _, _) => if side.A? then EventA(n, st) else Mirror(EventA(Mirror(n), st))
    case Tamper(t) =>
      if t.Lose? || t.Duplicate? || t.Reorder? then
        var s := Plain.Next(Untimed(n), t);
        n.(toA := s.toA, toB := s.toB)
      else n
  }

  function Run(n: Pair, steps: seq<Step>): Pair {
    if steps == [] then n else Next(Run(n, steps[..|steps| - 1]), steps[|steps| - 1])
  }

  // ---------------------------------------------------------------- refinement

  // The two-peer protocol forgets clocks and timers.
  function Untimed(n: Pair): Plain.System {
    Plain.System(n.a.peer, n.b.peer, n.toA, n.toB)
  }

  // What a call of handle_event at side A is in the two-peer protocol.
  function MovesA(n: Pair, st: Step): seq<Plain.Step>
    requires st.Event?
  {
    var r := RoundOf(st, n.toA);
    if !n.a.peer.outcome.Playing? then []
    else
      match VerdictOf(n.a, r)
      case Fires(_) =>
        var t := n.a.loop.queue[0].timer;
        if t.Pulse? then [] else [Plain.Retransmit(Plain.A, FindUnAck(n.a.peer.unacked, t.sequence))]
      case Sleeps(_) => []
      case Passes(_, _) => FirstMove(r) + SecondMove(n.a.peer, r)
  }

  function FirstMove(r: Round): seq<Plain.Step> {
    if r.arrival.Something? && r.arrival.stdin.Some? then [Plain.Stdin(Plain.A, r.arrival.stdin.value)] else []
  }

  function SecondMove(p: Peer, r: Round): seq<Plain.Step> {
    if Reads(p, r) then [Plain.Deliver(Plain.A)] else []
  }

  ghost predicate Inv(n: Pair) {
    Plain.Inv(Untimed(n)) && Orderly(n.a) && Orderly(n.b)
  }

  lemma ExpiryMoves(n: Pair, st: Step)
    requires Orderly(n.a) && st.Event? && n.a.peer.outcome.Playing?
    requires VerdictOf(n.a, RoundOf(st, n.toA)).Fires?
    ensures Plain.Run(Untimed(n), MovesA(n, st)) == Untimed(EventA(n, st))
  {
    hide HandleEvent, VerdictOf, Orderly, OnTimeout;
    ExpiryFinds(n.a, RoundOf(st, n.toA));
    assert n.toB + [] == n.toB;
    if n.a.loop.queue[0].timer.Retransmission? {
      RunOne(Untimed(n), MovesA(n, st)[0]);
    }
  }

  lemma RunOne(s: Plain.System, st: Plain.Step)
    ensures Plain.Run(s, [st]) == Plain.Next(s, st)
  {
    hide Plain.Next;
    assert [st][..0] == [];
  }

  // The two callbacks of a pass are at most a step each.
  lemma FirstMoves(s: Plain.System, r: Round)
    requires s.a.outcome.Playing?
    ensures var e := FirstPart(s.a, r); Plain.Run(s, FirstMove(r)) == s.(a := e.peer, toB := s.toB + e.sent)
  {
    hide OnStdin;
    if FirstMove(r) != [] {
      RunOne(s, FirstMove(r)[0]);
    }
    assert s.toB + [] == s.toB;
  }

  lemma SecondMoves(s: Plain.System, p: Peer, r: Round)
    requires s.a == FirstPart(p, r).peer
    requires Reads(p, r) ==> s.toA != [] && r.arrival.datagram == Some(s.toA[0])
    ensures var f := SecondPart(p, r);
      Plain.Run(s, SecondMove(p, r))
      == Plain.System(f.peer, s.b, if Reads(p, r) then s.toA[1..] else s.toA, s.toB + f.sent)
  {
    hide FirstPart, OnColumn, OnAck;
    if Reads(p, r) {
      RunOne(s, Plain.Deliver(Plain.A));
    }
    assert s.toB + [] == s.toB;
  }

  lemma ReadsHead(p: Peer, st: Step, toP: seq<Message>)
    requires st.Event? && Reads(p, RoundOf(st, toP))
    ensures toP != [] && RoundOf(st, toP).arrival.datagram == Some(toP[0])
  {
  }

  lemma PassIs(n: Pair, st: Step)
    requires st.Event? && n.a.peer.outcome.Playing? && VerdictOf(n.a, RoundOf(st, n.toA)).Passes?
    ensures var r := RoundOf(st, n.toA);
      var e, f := FirstPart(n.a.peer, r), SecondPart(n.a.peer, r);
      && MovesA(n, st) == FirstMove(r) + SecondMove(n.a.peer, r)
      && (Reads(n.a.peer, r) ==> n.toA != [])
      && Untimed(EventA(n, st))
         == Plain.System(f.peer, n.b.peer, if Reads(n.a.peer, r) then n.toA[1..] else n.toA, n.toB + (e.sent + f.sent))
  {
    hide HandleEvent, VerdictOf, FirstPart, SecondPart, FirstMove, SecondMove, Reads, RoundOf;
    if Reads(n.a.peer, RoundOf(st, n.toA)) {
      ReadsHead(n.a.peer, st, n.toA);
    }
  }

  lemma PassMoves(n: Pair, st: Step)
    requires st.Event? && n.a.peer.outcome.Playing? && VerdictOf(n.a, RoundOf(st, n.toA)).Passes?
    ensures Plain.Run(Untimed(n), MovesA(n, st)) == Untimed(EventA(n, st))
  {
    hide VerdictOf, FirstPart, SecondPart, FirstMove, SecondMove, Plain.Next, Plain.Run, Reads, RoundOf, EventA, MovesA;
    var s, r := Untimed(n), RoundOf(st, n.toA);
    if Reads(s.a, r) {
      ReadsHead(s.a, st, n.toA);
    }
    var e := FirstPart(s.a, r);
    PassIs(n, st);
    FirstMoves(s, r);
    SecondMoves(s.(a := e.peer, toB := s.toB + e.sent), s.a, r);
    RunConcat(s, FirstMove(r), SecondMove(s.a, r));
    assert s.toB + (e.sent + SecondPart(s.a, r).sent) == s.toB + e.sent + SecondPart(s.a, r).sent;
  }

  lemma MovesInOrder(n: Pair, st: Step)
    requires st.Event?
    ensures NoReorder(MovesA(n, st))
  {
    hide VerdictOf, RoundOf, Reads, FindUnAck;
  }

  // A call of handle_event is at most two steps of the two-peer protocol.
  lemma EventRefines(n: Pair, st: Step)
    requires Orderly(n.a) && st.Event?
    ensures Plain.Run(Untimed(n), MovesA(n, st)) == Untimed(EventA(n, st))
    ensures NoReorder(MovesA(n, st))
  {
    hide Orderly, HandleEvent, VerdictOf, Plain.Next, OnExpiry, SecondPart, FirstPart, FirstMove, SecondMove, NoReorder;
    MovesInOrder(n, st);
    if n.a.peer.outcome.Playing? {
      match VerdictOf(n.a, RoundOf(st, n.toA))
      case Fires(_) => ExpiryMoves(n, st);
      case Sleeps(_) => assert n.toB + [] == n.toB;
      case Passes(_, _) => PassMoves(n, st);
    }
  }

  // The same step with the sides exchanged.
  function Swap(t: Plain.Step): Plain.Step {
    var side := if t.side.A? then Plain.B else Plain.A;
    match t
    case Stdin(_, move) => Plain.Stdin(side, move)
    case Retransmit(_, k) => Plain.Retransmit(side, k)
    case Deliver(_) => Plain.Deliver(side)
    case Lose(_, i) => Plain.Lose(side, i)
    case Duplicate(_, i) => Plain.Duplicate(side, i)
    case Reorder(_, i) => Plain.Reorder(side, i)
  }

  function SwapAll(ts: seq<Plain.Step>): seq<Plain.Step> {
    if ts == [] then [] else SwapAll(ts[..|ts| - 1]) + [Swap(ts[|ts| - 1])]
  }

  lemma SwapNext(s: Plain.System, t: Plain.Step)
    ensures Plain.Next(Plain.Mirror(s), Swap(t)) == Plain.Mirror(Plain.Next(s, t))
  {
    hide OnStdin, OnTimeout, OnColumn, OnAck;
    var u := if t.side.A? then s else Plain.Mirror(s);
    assert Plain.StepA(u, Swap(t)) == Plain.StepA(u, t);
  }

  lemma {:induction false} SwapRun(s: Plain.System, ts: seq<Plain.Step>)
    ensures Plain.Run(Plain.Mirror(s), SwapAll(ts)) == Plain.Mirror(Plain.Run(s, ts))
    ensures NoReorder(ts) ==> NoReorder(SwapAll(ts))
  {
    hide Plain.Next;
    if ts != [] {
      var prefix := ts[..|ts| - 1];
      SwapRun(s, prefix);
      SwapNext(Plain.Run(s, prefix), ts[|ts| - 1]);
      RunAppend(Plain.Mirror(s), SwapAll(prefix), Swap(ts[|ts| - 1]));
    }
  }

  ghost predicate NoReorder(ts: seq<Plain.Step>) {
    forall i :: 0 <= i < |ts| ==> !ts[i].Reorder?
  }

  // The network keeps the order of datagrams.
  ghost predicate InSequence(steps: seq<Step>) {
    forall i :: 0 <= i < |steps| ==> steps[i].Tamper? ==> !steps[i].step.Reorder?
  }

  lemma NextRefines(n: Pair, st: Step) returns (ts: seq<Plain.Step>)
    requires Orderly(n.a) && Orderly(n.b)
    ensures Plain.Run(Untimed(n), ts) == Untimed(Next(n, st))
    ensures !(st.Tamper? && st.step.Reorder?) ==> NoReorder(ts)
  {
    hide Orderly, EventA, MovesA, Plain.Next;
    match st
    case Event(side, _, _, _) =>
      if side.A? {
        EventRefines(n, st);
        ts := MovesA(n, st);
      } else {
        EventRefines(Mirror(n), st);
        SwapRun(Untimed(Mirror(n)), MovesA(Mirror(n), st));
        ts := SwapAll(MovesA(Mirror(n), st));
      }
    case Tamper(t) =>
      if t.Lose? || t.Duplicate? || t.Reorder? {
        TamperPeers(Untimed(n), t);
        RunOne(Untimed(n), t);
        ts := [t];
      } else {
        ts := [];
      }
  }

  lemma TamperPeers(s: Plain.System, t: Plain.Step)
    requires t.Lose? || t.Duplicate? || t.Reorder?
    ensures Plain.Next(s, t).a == s.a && Plain.Next(s, t).b == s.b
  {
  }

  lemma NextOrderly(n: Pair, st: Step)
    requires Orderly(n.a) && Orderly(n.b)
    ensures Orderly(Next(n, st).a) && Orderly(Next(n, st).b)
  {
    hide Orderly, Serve, Plain.Next;
    if st.Event? {
      var m := if st.side.A? then n else Mirror(n);
      if m.a.peer.outcome.Playing? {
        ServeOrderly(m.a, RoundOf(st, m.toA));
      }
    }
  }

  // Every run is a run of the two-peer protocol, on a network no worse.
  lemma {:induction false} RunRefines(n: Pair, steps: seq<Step>) returns (ts: seq<Plain.Step>)
    requires Orderly(n.a) && Orderly(n.b)
    ensures Plain.Run(Untimed(n), ts) == Untimed(Run(n, steps))
    ensures Orderly(Run(n, steps).a) && Orderly(Run(n, steps).b)
    ensures InSequence(steps) ==> NoReorder(ts)
  {
    hide Orderly, Next, Untimed, Plain.Next;
    if steps == [] {
      ts := [];
    } else {
      var prefix, st := steps[..|steps| - 1], steps[|steps| - 1];
      var before := RunRefines(n, prefix);
      var last := NextRefines(Run(n, prefix), st);
      NextOrderly(Run(n, prefix), st);
      RunConcat(Untimed(n), before, last);
      ts := before + last;
    }
  }

  lemma InitOrderly(x: Setup)
    ensures Orderly(Init(x).a) && Orderly(Init(x).b) && Untimed(Init(x)) == Plain.Init(x.aStarts)
  {
    hide Orderly, PerformAll;
    StartOrderly(x.aStarts, x.clockA, x.delayA);
    StartOrderly(!x.aStarts, x.clockB, x.delayB);
  }

  // The clients as they run are an instance of the protocol: what holds in every run of
  // it, holds of them.
  lemma RunsAreProtocolRuns(x: Setup, steps: seq<Step>) returns (ts: seq<Plain.Step>)
    ensures Untimed(Run(Init(x), steps)) == Plain.Run(Plain.Init(x.aStarts), ts)
    ensures InSequence(steps) ==> NoReorder(ts)
    ensures Inv(Run(Init(x), steps))
  {
    hide Orderly, Init, Next, Plain.Inv, Plain.Init, Plain.Next;
    InitOrderly(x);
    ts := RunRefines(Init(x), steps);
    Plain.RunKeeps(x.aStarts, ts);
  }

  // ---------------------------------------------------------------- what holds in every run

  ghost predicate TimerRuns(c: Process, n: uint32) {
    exists i :: 0 <= i < |c.loop.queue| && c.loop.queue[i].timer == Retransmission(n)
  }

  // Every queued message of p has its timer running, no other message has one, and the
  // move that q has not accepted yet is among the queued ones.
  ghost predicate SafelyTimed(p: Process, q: Process, toP: seq<Message>) {
    && Plain.SafelyQueued(p.peer, q.peer, toP)
    && (forall n: uint32 :: TimerRuns(p, n)
                            <==> exists i :: 0 <= i < |p.peer.unacked| && p.peer.unacked[i].sequence == n)
    && (q.peer.nextExpected < p.peer.nextSequence ==> TimerRuns(p, q.peer.nextExpected))
  }

  lemma OrderlyTimed(p: Process, q: Process, toP: seq<Message>)
    requires Orderly(p) && Plain.SafelyQueued(p.peer, q.peer, toP)
    ensures SafelyTimed(p, q, toP)
  {
    hide Sound, EventLoop.Inv, Punctual, InStep, Unused;
    forall n: uint32
      ensures TimerRuns(p, n) <==> exists i :: 0 <= i < |p.peer.unacked| && p.peer.unacked[i].sequence == n
    {
      assert TimerRuns(p, n) <==> TimerQueue.Started(p.loop.queue, Retransmission(n));
      assert TimerRuns(p, n) <==> Wanted(p.peer.unacked, Retransmission(n));
    }
  }

  // Retransmission safety: acknowledgements in flight name accepted moves, and a move that
  // is not accepted yet is queued with its timer running.
  lemma RetransmissionSafety(x: Setup, steps: seq<Step>)
    ensures var n := Run(Init(x), steps); SafelyTimed(n.a, n.b, n.toA) && SafelyTimed(n.b, n.a, n.toB)
  {
    hide Orderly, Run, Init, Plain.Run, Plain.Init, Plain.SafelyQueued, SafelyTimed;
    var n := Run(Init(x), steps);
    var ts := RunsAreProtocolRuns(x, steps);
    Plain.RetransmissionSafety(x.aStarts, ts);
    OrderlyTimed(n.a, n.b, n.toA);
    OrderlyTimed(n.b, n.a, n.toB);
  }
}

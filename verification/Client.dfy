// The client process of client/src/client.c on the heap: its globals, the linked list of
// unacknowledged column messages with a cblib timer each, and the 4clib board. Every
// handler is proved to do what the handler of module Peer does on values.

module Client {
  import opened Words
  import opened Time
  import opened TimerQueue
  import Board
  import opened Codec
  import opened Peer
  import Handlers = Peer

  // struct un_ack_column_message
  class Node {
    var sequence: uint32
    var column: uint16
    var timer: Timer
    var nextTimeout: uint32
    var next: Node?

    constructor (sequence: uint32, column: uint16, timer: Timer)
      ensures this.sequence == sequence && this.column == column && this.timer == timer
      ensures nextTimeout == DEFAULT_RETRANSMISSION_TIME && next == null
    {
      this.sequence, this.column, this.timer := sequence, column, timer;
      nextTimeout, next := DEFAULT_RETRANSMISSION_TIME, null;
    }
  }

  class Client {
    var state: Phase
    var nextSequence: uint32
    var nextExpected: uint32
    var outcome: Outcome
    var first: Node?                  // un_ack_column_messages.next
    const grid: Board.Grid
    const timers: TimerList
    ghost var nodes: seq<Node>        // the list in order
    ghost var unacked: seq<UnAck>     // the same as values
    ghost var clocks: seq<Timer>      // the timer of each message
    ghost var history: Board.History

    // The state of the process as module Peer describes it.
    ghost function View(): Peer
      reads this, grid
    {
      Peer(state, nextSequence, nextExpected, unacked, grid.view, history, outcome)
    }

    ghost predicate ValidBut(x: int)
      reads this, nodes, timers, timers.all, grid, grid.field, grid.nextRow
    {
      && timers.Valid() && grid.Valid()
      && Chain(nodes, first) && Holds(nodes, unacked, clocks)
      && Timed(clocks, timers.queue, timers.all, x)
    }

    ghost predicate Valid()
      reads this, nodes, timers, timers.all, grid, grid.field, grid.nextRow
    {
      ValidBut(-1)
    }

    // The timers that exist are those of the queued messages, and all of them are running.
    lemma TimersAreMessages()
      requires Valid()
      ensures |clocks| == |unacked|
      ensures forall t :: t in timers.all <==> t in clocks
      ensures forall t :: Started(timers.queue, t) <==> t in clocks
      ensures forall e :: e in timers.queue ==> e.timer in clocks
    {
      timers.StartedListed();
      timers.QueueKnown();
      hide Chain, TimerList.Valid, Board.Grid.Valid;
      TimedAll(clocks, timers.queue, timers.all);
    }

    // start_client
    constructor (start: bool)
      ensures Valid() && View() == Begin(start)
      ensures fresh(timers) && fresh(grid) && fresh(grid.field) && fresh(grid.nextRow) && timers.all == {}
    {
      grid := new Board.Grid();
      timers := new TimerList();
      state := if start then Turn else Wait;
      nextSequence, nextExpected, outcome, first := 0, 0, Playing, null;
      nodes, unacked, clocks, history := [], [], [], [];
    }

    // transmit_column_message
    method TransmitColumnMessage(u: Node, now: Instant, ghost k: nat) returns (sent: Message)
      requires ValidBut(k) && k < |nodes| && nodes[k] == u && now != ZERO
      modifies this`unacked, u`nextTimeout, timers, timers.all
      ensures Valid() && timers.all == old(timers.all)
      ensures k < |old(unacked)|
      ensures unacked == old(unacked)[k := old(unacked[k]).(nextTimeout := Doubled(old(unacked[k].nextTimeout)))]
      ensures sent == Column(old(unacked[k].sequence), old(unacked[k].column))
      ensures timers.queue == StartSpec(old(timers.queue), u.timer, old(u.nextTimeout), now)
    {
      hide Chain, Timed, StartSpec, Board.OnBoard;
      assert clocks[k] == u.timer && u.timer in timers.all by {
        TimedIn(clocks, timers.queue, timers.all, k, k);
      }
      timers.StartedListed();
      TimedStart(clocks, timers.queue, timers.all, k, u.nextTimeout, now);
      sent := Column(u.sequence, u.column);
      timers.StartTimer(u.timer, u.nextTimeout, now);
      DoubleTimeout(u, k);
    }

    // What handle_event does when the timer of the k-th message expires: stop it and run
    // its callback, which transmits the message and starts the timer again.
    method OnTimer(u: Node, now: Instant, ghost k: nat) returns (sent: Message)
      requires Valid() && k < |nodes| && nodes[k] == u && now != ZERO
      modifies this`unacked, u`nextTimeout, timers, timers.all
      ensures Valid() && timers.all == old(timers.all) && k < |old(unacked)|
      ensures Reaction(View(), [sent]) == OnTimeout(old(View()), k)
      ensures timers.queue == StartSpec(Remove(old(timers.queue), u.timer), u.timer, old(u.nextTimeout), now)
    {
      hide Chain, Holds, Timed, TimerList.Valid, Board.Grid.Valid, StartSpec, Remove;
      HoldsAt(nodes, unacked, clocks, k);
      TimedIn(clocks, timers.queue, timers.all, -1, k);
      timers.StartedListed();
      TimedPause(clocks, timers.queue, timers.all, k);
      timers.StopTimer(u.timer);
      sent := TransmitColumnMessage(u, now, k);
    }

    method DoubleTimeout(u: Node, ghost k: nat)
      requires Holds(nodes, unacked, clocks) && Chain(nodes, first) && k < |nodes| && nodes[k] == u
      modifies this`unacked, u`nextTimeout
      ensures Holds(nodes, unacked, clocks) && Chain(nodes, first)
      ensures unacked == old(unacked)[k := old(unacked[k]).(nextTimeout := Doubled(old(unacked[k].nextTimeout)))]
    {
      u.nextTimeout := Doubled(u.nextTimeout);
      unacked := unacked[k := unacked[k].(nextTimeout := u.nextTimeout)];
    }

    // The queueing loop of send_column_message.
    method Enqueue(item: Node)
      requires Chain(nodes, first) && item !in nodes && item.next == null
      modifies this`first, nodes`next
      ensures Chain(nodes + [item], first)
    {
      if first == null {
        first := item;
        return;
      }
      var prev := first;
      ghost var k := 0;
      while prev.next != null
        invariant 0 <= k < |nodes| && prev == nodes[k]
        decreases |nodes| - k
      {
        prev := prev.next;
        k := k + 1;
      }
      prev.next := item;
    }

    // Record what the linked list has become.
    ghost method Relist(l: seq<Node>, us: seq<UnAck>, cs: seq<Timer>, x: int)
      requires timers.Valid() && grid.Valid() && Chain(l, first)
      requires Holds(l, us, cs) && Timed(cs, timers.queue, timers.all, x)
      modifies this`nodes, this`unacked, this`clocks
      ensures ValidBut(x) && nodes == l && unacked == us && clocks == cs
    {
      hide Chain, Holds, Timed, TimerList.Valid, Board.Grid.Valid;
      nodes, unacked, clocks := l, us, cs;
    }

    // send_column_message up to the first transmission: a new entry at the end of the
    // list whose timer is not running yet.
    method NewMessage(column: uint16) returns (item: Node)
      requires Valid()
      modifies this`first, this`nodes, this`unacked, this`clocks, nodes, timers
      ensures ValidBut(|old(nodes)|) && fresh(item) && nodes == old(nodes) + [item] && |unacked| == |nodes|
      ensures unacked == old(unacked) + [UnAck(nextSequence, column, DEFAULT_RETRANSMISSION_TIME)]
      ensures timers.queue == old(timers.queue) && timers.all == old(timers.all) + {item.timer}
      ensures clocks == old(clocks) + [item.timer] && fresh(item.timer)
      ensures item.nextTimeout == DEFAULT_RETRANSMISSION_TIME
    {
      hide Chain, Holds, Timed, TimerList.Valid, Board.Grid.Valid;
      timers.QueueKnown();
      var timer := timers.CreateTimer();
      item := new Node(nextSequence, column, timer);
      Enqueue(item);
      NotRunning(timers.queue, clocks, old(timers.all), timer);
      HoldsMore(nodes, unacked, clocks, item);
      Relist(nodes + [item], unacked + [UnAck(nextSequence, column, DEFAULT_RETRANSMISSION_TIME)],
             clocks + [timer], |nodes|);
    }

    // One timer more exists, and it has been started for the first timeout.
    ghost predicate NewTimer(cs: seq<Timer>, q: Queue<Timer>, all: set<Timer>, now: Instant)
      reads this`clocks, timers`queue, timers`all
    {
      && |clocks| == |cs| + 1 && clocks[..|cs|] == cs
      && clocks[|cs|] !in all && timers.all == all + {clocks[|cs|]}
      && timers.queue == StartSpec(q, clocks[|cs|], DEFAULT_RETRANSMISSION_TIME, now)
    }

    // send_column_message
    method SendColumnMessage(column: uint16, now: Instant) returns (sent: Message)
      requires Valid() && now != ZERO
      modifies this`first, this`nodes, this`unacked, this`clocks, this`nextSequence, nodes, timers, timers.all
      ensures Valid() && NewTimer(old(clocks), old(timers.queue), old(timers.all), now)
      ensures fresh(timers.all - old(timers.all))
      ensures |nodes| == |old(nodes)| + 1 && nodes[..|old(nodes)|] == old(nodes) && fresh(nodes[|old(nodes)|])
      ensures unacked == old(unacked) + [UnAck(old(nextSequence), column, Doubled(DEFAULT_RETRANSMISSION_TIME))]
      ensures nextSequence == Wrap32(old(nextSequence) + 1) && sent == Column(old(nextSequence), column)
    {
      hide Chain, Holds, Timed, TimerList.Valid, Board.Grid.Valid, StartSpec;
      var item := NewMessage(column);
      sent := TransmitColumnMessage(item, now, |old(nodes)|);
      ghost var before := UnAck(nextSequence, column, DEFAULT_RETRANSMISSION_TIME);
      ghost var after := UnAck(nextSequence, column, Doubled(DEFAULT_RETRANSMISSION_TIME));
      assert (old(unacked) + [before])[|old(unacked)| := after] == old(unacked) + [after];
      nextSequence := Wrap32(nextSequence + 1);
    }

    // make_move
    method Play(c: int, player: int)
      requires Valid() && Board.CanMove(grid.view, c)
      modifies this`history, grid, grid.field, grid.nextRow
      ensures Valid() && View() == Moved(old(View()), c, player)
    {
      hide Chain, Holds, Timed, TimerList.Valid, Board.Grid.Valid;
      grid.MakeMove(c, player);
      history := history + [Board.Move(c, player)];
    }

    // on_stdin, with the number the player entered.
    method OnStdin(move: int, now: Instant) returns (sent: seq<Message>)
      requires Valid() && outcome.Playing? && now != ZERO
      modifies this, nodes, timers, timers.all, grid, grid.field, grid.nextRow
      ensures Valid() && fresh(timers.all - old(timers.all))
      ensures forall n :: n in nodes ==> n in old(nodes) || fresh(n)
      ensures Reaction(View(), sent) == Handlers.OnStdin(old(View()), move)
      ensures sent == [] ==> timers.queue == old(timers.queue) && timers.all == old(timers.all) && clocks == old(clocks)
      ensures sent != [] ==> NewTimer(old(clocks), old(timers.queue), old(timers.all), now)
    {
      hide Chain, Holds, Timed, TimerList.Valid, Board.Grid.Valid, Board.WinnerOf, ValidBut;
      if state != Turn {
        return [];
      }
      var valid := CanPlay(move);
      if !valid {
        return [];
      }
      var message := MakeMove(move, now);
      sent := [message];
      var won := Judge(Won, TurnAck);
    }

    // Play the player's move and send it.
    method MakeMove(move: uint16, now: Instant) returns (message: Message)
      requires Valid() && now != ZERO && Board.CanMove(grid.view, move)
      modifies this, nodes, timers, timers.all, grid, grid.field, grid.nextRow
      ensures Valid() && fresh(timers.all - old(timers.all))
      ensures NewTimer(old(clocks), old(timers.queue), old(timers.all), now)
      ensures forall n :: n in nodes ==> n in old(nodes) || fresh(n)
      ensures Reaction(View(), [message]) == SendColumn(Moved(old(View()), move, Board.PLAYER_1), move)
    {
      hide Chain, Holds, Timed, TimerList.Valid, Board.Grid.Valid, ValidBut;
      Play(move, Board.PLAYER_1);
      message := SendColumnMessage(move, now);
    }

    // valid_move
    method CanPlay(c: int) returns (valid: bool)
      requires Valid()
      ensures valid == Board.CanMove(grid.view, c)
    {
      valid := grid.ValidMove(c);
    }

    // winner() after a move: exit with a verdict, or go on in the next state.
    method Judge(verdict: Outcome, next: Phase) returns (over: bool)
      requires Valid()
      modifies this`outcome, this`state
      ensures Valid() && over == (Board.WinnerOf(grid.view.field) != 0)
      ensures outcome == (if over then verdict else old(outcome)) && state == (if over then old(state) else next)
    {
      hide Chain, Holds, Timed, TimerList.Valid, Board.Grid.Valid, Board.WinnerOf;
      var winner := grid.Winner();
      over := winner != 0;
      if over {
        outcome := verdict;
      } else {
        state := next;
      }
    }

    // on_column_message
    method OnColumn(sequence: uint32, column: uint16) returns (sent: seq<Message>)
      requires Valid() && outcome.Playing?
      modifies this`nextExpected, this`history, this`outcome, this`state, grid, grid.field, grid.nextRow
      ensures Valid() && Reaction(View(), sent) == Handlers.OnColumn(old(View()), sequence, column)
    {
      hide Chain, Holds, Timed, TimerList.Valid, Board.Grid.Valid, Board.WinnerOf;
      if sequence > nextExpected {
        return [ColumnAck(Wrap32(nextExpected - 1))];
      } else if sequence < nextExpected {
        return [];
      }
      nextExpected := Wrap32(nextExpected + 1);
      sent := [ColumnAck(sequence)];
      var valid := CanPlay(column);
      if !valid {
        return;
      }
      Play(column, Board.PLAYER_2);
      var lost := Judge(Lost, Turn);
    }

    // Take the k-th message out of the list, given its predecessor.
    method Unlink(prev: Node?, curr: Node, ghost k: nat)
      requires Chain(nodes, first) && k < |nodes| && curr == nodes[k]
      requires prev == if k == 0 then null else nodes[k - 1]
      modifies this`first, nodes`next
      ensures Chain(nodes[..k] + nodes[k + 1..], first)
    {
      if prev == null {
        first := curr.next;
      } else {
        prev.next := curr.next;
      }
    }

    // The loop of on_column_ack_message.
    method FindMessage(sequence: uint32) returns (prev: Node?, curr: Node?, ghost k: nat)
      requires Valid()
      ensures k == FindUnAck(unacked, sequence) && |unacked| == |nodes|
      ensures curr == if k < |nodes| then nodes[k] else null
      ensures curr == null <==> forall n :: n in nodes ==> n.sequence != sequence
      ensures curr != null ==> curr in nodes && curr.sequence == sequence
      ensures k < |nodes| ==> prev == if k == 0 then null else nodes[k - 1]
    {
      prev, curr, k := null, first, 0;
      while curr != null
        invariant 0 <= k <= |nodes| && curr == if k < |nodes| then nodes[k] else null
        invariant prev == if k == 0 then null else nodes[k - 1]
        invariant forall i :: 0 <= i < k ==> unacked[i].sequence != sequence
        decreases |nodes| - k
      {
        if curr.sequence == sequence {
          break;
        }
        prev, curr, k := curr, curr.next, k + 1;
      }
      FindUnAckIs(unacked, sequence, k);
    }

    // on_column_ack_message
    method OnAck(sequence: uint32)
      requires Valid() && outcome.Playing?
      modifies this`state, this`first, this`nodes, this`unacked, this`clocks, nodes, timers, timers.all
      ensures Valid() && |old(clocks)| == |old(unacked)|
      ensures forall n :: n in nodes ==> n in old(nodes)
      ensures View() == Handlers.OnAck(old(View()), sequence)
      ensures var k := FindUnAck(old(unacked), sequence);
        if k < |old(unacked)| then Forgot(old(clocks), old(timers.queue), old(timers.all), k)
        else timers.queue == old(timers.queue) && timers.all == old(timers.all) && clocks == old(clocks)
    {
      hide Chain, Holds, Timed, TimerList.Valid, Board.Grid.Valid, FindUnAck;
      HoldsAll(nodes, unacked, clocks);
      var prev, curr;
      ghost var k;
      prev, curr, k := FindMessage(sequence);
      if curr != null {
        state := Wait;
        Forget(prev, curr, k);
      }
    }

    // The timer of the k-th message is not running and does not exist any more; every other
    // timer runs on.
    ghost predicate Forgot(cs: seq<Timer>, q: Queue<Timer>, all: set<Timer>, k: nat)
      requires k < |cs|
      reads this`clocks, timers`queue, timers`all
    {
      && clocks == cs[..k] + cs[k + 1..]
      && timers.all == all - {cs[k]}
      && timers.queue == Remove(q, cs[k]) && !Started(timers.queue, cs[k])
    }

    // stop_timer and delete_timer for the timer of the k-th message.
    method FreeTimer(t: Timer, ghost k: nat)
      requires timers.Valid() && Timed(clocks, timers.queue, timers.all, -1) && k < |clocks| && t == clocks[k]
      modifies timers, timers.all
      ensures timers.Valid() && timers.all == old(timers.all) - {t}
      ensures timers.queue == Remove(old(timers.queue), t) && !Started(timers.queue, t)
      ensures Timed(clocks[..k] + clocks[k + 1..], timers.queue, timers.all, -1)
    {
      hide Timed, Remove, Started;
      TimedIn(clocks, timers.queue, timers.all, -1, k);
      timers.StartedListed();
      TimedStop(clocks, timers.queue, timers.all, k);
      timers.StopTimer(t);
      timers.DeleteTimer(t);
    }

    // Unlink and free the k-th message and its timer.
    method Forget(prev: Node?, curr: Node, ghost k: nat)
      requires Valid() && k < |nodes| && |unacked| == |nodes| && curr == nodes[k]
      requires prev == if k == 0 then null else nodes[k - 1]
      modifies this`first, this`nodes, this`unacked, this`clocks, nodes, timers, timers.all
      ensures Valid() && k < |old(clocks)| && Forgot(old(clocks), old(timers.queue), old(timers.all), k)
      ensures nodes == old(nodes)[..k] + old(nodes)[k + 1..]
      ensures unacked == old(unacked)[..k] + old(unacked)[k + 1..]
    {
      hide Chain, Holds, Timed, TimerList.Valid, Board.Grid.Valid;
      HoldsAt(nodes, unacked, clocks, k);
      Unlink(prev, curr, k);
      FreeTimer(curr.timer, k);
      HoldsLess(nodes, unacked, clocks, k);
      Relist(nodes[..k] + nodes[k + 1..], unacked[..k] + unacked[k + 1..], clocks[..k] + clocks[k + 1..], -1);
    }
  }

  // A singly linked list of distinct nodes.
  ghost predicate Chain(l: seq<Node>, head: Node?)
    reads l`next
  {
    && (forall i, j :: 0 <= i < j < |l| ==> l[i] != l[j])
    && (head == if l == [] then null else l[0])
    && (forall i {:trigger l[i].next} :: 0 <= i < |l| ==> l[i].next == if i == |l| - 1 then null else l[i + 1])
  }

  // The nodes hold these messages and timers.
  ghost predicate Holds(l: seq<Node>, us: seq<UnAck>, cs: seq<Timer>)
    reads l`sequence, l`column, l`nextTimeout, l`timer
  {
    && |us| == |l| == |cs|
    && forall i :: 0 <= i < |l| ==> us[i] == UnAck(l[i].sequence, l[i].column, l[i].nextTimeout) && cs[i] == l[i].timer
  }

  // Each message has a timer of its own, and it is running, except that of message x; no
  // other timer exists.
  ghost predicate Timed(cs: seq<Timer>, q: Queue<Timer>, all: set<Timer>, x: int) {
    && (forall i :: 0 <= i < |cs| ==> cs[i] in all)
    && (forall i, j :: 0 <= i < j < |cs| ==> cs[i] != cs[j])
    && (forall i :: 0 <= i < |cs| ==> (Started(q, cs[i]) <==> i != x))
    && (forall t :: t in all ==> t in cs)
  }

  lemma TimedAll(cs: seq<Timer>, q: Queue<Timer>, all: set<Timer>)
    requires Timed(cs, q, all, -1) && forall i :: 0 <= i < |q| ==> q[i].timer in all
    ensures forall t :: t in all <==> t in cs
    ensures forall t :: Started(q, t) <==> t in cs
    ensures forall e :: e in q ==> e.timer in cs
  {
  }

  lemma TimedIn(cs: seq<Timer>, q: Queue<Timer>, all: set<Timer>, x: int, k: nat)
    requires Timed(cs, q, all, x) && k < |cs|
    ensures cs[k] in all
  {
  }

  lemma TimedStart(cs: seq<Timer>, q: Queue<Timer>, all: set<Timer>, k: nat, timeout: uint32, now: Instant)
    requires Timed(cs, q, all, k) && k < |cs| && Sorted(q) && Distinct(q)
    ensures Timed(cs, StartSpec(q, cs[k], timeout, now), all, -1)
  {
    hide Started, StartSpec;
    var r := StartSpec(q, cs[k], timeout, now);
    forall i | 0 <= i < |cs| ensures Started(r, cs[i]) {
      StartStarts(q, cs[k], timeout, now, cs[i]);
    }
  }

  lemma HoldsMore(l: seq<Node>, us: seq<UnAck>, cs: seq<Timer>, n: Node)
    requires Holds(l, us, cs)
    ensures |us| == |l| == |cs|
    ensures Holds(l + [n], us + [UnAck(n.sequence, n.column, n.nextTimeout)], cs + [n.timer])
  {
  }

  // A timer just created is not running.
  lemma NotRunning(q: Queue<Timer>, cs: seq<Timer>, all: set<Timer>, t: Timer)
    requires Timed(cs, q, all, -1) && t !in all && forall i :: 0 <= i < |q| ==> q[i].timer in all
    ensures Timed(cs + [t], q, all + {t}, |cs|)
  {
    assert !Started(q, t);
  }

  lemma HoldsAt(l: seq<Node>, us: seq<UnAck>, cs: seq<Timer>, k: nat)
    requires Holds(l, us, cs) && k < |l|
    ensures |us| == |l| == |cs| && cs[k] == l[k].timer
  {
  }

  lemma HoldsAll(l: seq<Node>, us: seq<UnAck>, cs: seq<Timer>)
    requires Holds(l, us, cs)
    ensures |us| == |l| == |cs|
  {
  }

  lemma HoldsLess(l: seq<Node>, us: seq<UnAck>, cs: seq<Timer>, k: nat)
    requires Holds(l, us, cs) && k < |l|
    ensures |us| == |l| == |cs|
    ensures Holds(l[..k] + l[k + 1..], us[..k] + us[k + 1..], cs[..k] + cs[k + 1..])
  {
  }

  lemma TimedStop(cs: seq<Timer>, q: Queue<Timer>, all: set<Timer>, k: nat)
    requires Timed(cs, q, all, -1) && k < |cs| && Sorted(q) && Distinct(q)
    ensures Timed(cs[..k] + cs[k + 1..], Remove(q, cs[k]), all - {cs[k]}, -1)
    ensures !Started(Remove(q, cs[k]), cs[k])
  {
    hide Started, Remove;
    var ds, r := cs[..k] + cs[k + 1..], Remove(q, cs[k]);
    StopStops(q, cs[k], cs[k]);
    forall i | 0 <= i < |ds| ensures Started(r, ds[i]) {
      StopStops(q, cs[k], ds[i]);
    }
  }

  lemma TimedPause(cs: seq<Timer>, q: Queue<Timer>, all: set<Timer>, k: nat)
    requires Timed(cs, q, all, -1) && k < |cs| && Sorted(q) && Distinct(q)
    ensures Timed(cs, Remove(q, cs[k]), all, k)
  {
    hide Started, Remove;
    forall i | 0 <= i < |cs| ensures Started(Remove(q, cs[k]), cs[i]) <==> i != k {
      StopStops(q, cs[k], cs[i]);
    }
  }
}

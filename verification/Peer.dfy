// The state of one client of client/src/client.c and its event handlers, on values.

module Peer {
  import opened Words
  import opened Board
  import opened Codec

  const DEFAULT_RETRANSMISSION_TIME: uint32 := 1000

  datatype Phase = Turn | TurnAck | Wait

  // exit(0) after a win or a loss ends the process for good.
  datatype Outcome = Playing | Won | Lost

  // An entry of the list of unacknowledged column messages.
  datatype UnAck = UnAck(sequence: uint32, column: uint16, nextTimeout: uint32)

  // The globals of the process. The board is 4clib's; `history` records the calls of
  // make_move and is not part of the program.
  datatype Peer = Peer(
    phase: Phase,
    nextSequence: uint32,
    nextExpected: uint32,
    unacked: seq<UnAck>,
    board: Position,
    history: History,
    outcome: Outcome)

  // start_client
  function Begin(start: bool): Peer {
    Peer(if start then Turn else Wait, 0, 0, [], Empty(), [], Playing)
  }

  function Moved(p: Peer, c: int, player: int): Peer
    requires CanMove(p.board, c)
  {
    p.(board := Drop(p.board, c, player), history := p.history + [Move(c, player)])
  }

  // The messages a handler hands to send_message, in order.
  datatype Reaction = Reaction(peer: Peer, sent: seq<Message>)

  function Doubled(timeout: uint32): uint32 {
    Wrap32(timeout * 2)
  }

  // send_column_message: queue the move and transmit it for the first time.
  function SendColumn(p: Peer, c: uint16): Reaction {
    var u := UnAck(p.nextSequence, c, Doubled(DEFAULT_RETRANSMISSION_TIME));
    Reaction(p.(unacked := p.unacked + [u], nextSequence := Wrap32(p.nextSequence + 1)),
             [Column(p.nextSequence, c)])
  }

  // on_stdin, with the number the player entered.
  function OnStdin(p: Peer, move: int): Reaction {
    if p.phase != Turn || !CanMove(p.board, move) then Reaction(p, [])
    else
      var r := SendColumn(Moved(p, move, PLAYER_1), move);
      if WinnerOf(r.peer.board.field) != 0 then r.(peer := r.peer.(outcome := Won))
      else r.(peer := r.peer.(phase := TurnAck))
  }

  // transmit_column_message from the timer of the k-th unacknowledged message.
  function OnTimeout(p: Peer, k: nat): Reaction
    requires k < |p.unacked|
  {
    var u := p.unacked[k];
    Reaction(p.(unacked := p.unacked[k := u.(nextTimeout := Doubled(u.nextTimeout))]), [Column(u.sequence, u.column)])
  }

  // on_column_message
  function OnColumn(p: Peer, sequence: uint32, column: uint16): Reaction {
    if sequence > p.nextExpected then Reaction(p, [ColumnAck(Wrap32(p.nextExpected - 1))])
    else if sequence < p.nextExpected then Reaction(p, [])
    else
      var q := p.(nextExpected := Wrap32(p.nextExpected + 1));
      if !CanMove(q.board, column) then Reaction(q, [ColumnAck(sequence)])
      else
        var m := Moved(q, column, PLAYER_2);
        Reaction(if WinnerOf(m.board.field) != 0 then m.(outcome := Lost) else m.(phase := Turn), [ColumnAck(sequence)])
  }

  // Only the expected column message changes the peer. An old one is not answered; any other
  // is answered with the sequence accepted last, also the one that leaves a gap and the one
  // whose column is not a valid move.
  lemma ColumnAnswers(p: Peer, sequence: uint32, column: uint16)
    ensures var r := OnColumn(p, sequence, column);
      && (sequence < p.nextExpected ==> r.sent == [])
      && (sequence >= p.nextExpected ==> r.sent == [ColumnAck(Wrap32(r.peer.nextExpected - 1))])
      && (sequence != p.nextExpected ==> r.peer == p)
      && (sequence == p.nextExpected ==> r.peer.nextExpected == Wrap32(p.nextExpected + 1))
      && (sequence == p.nextExpected && !CanMove(p.board, column) ==> r.peer == p.(nextExpected := r.peer.nextExpected))
      && (sequence == p.nextExpected && CanMove(p.board, column) ==>
            r.peer.history == p.history + [Move(column, PLAYER_2)] && (r.peer.outcome.Lost? || r.peer.phase.Turn?))
  {
    hide WinnerOf;
  }

  // The first unacknowledged message with this sequence number, or the list's length.
  function FindUnAck(us: seq<UnAck>, sequence: uint32): (k: nat)
    ensures k <= |us|
    ensures forall i :: 0 <= i < k ==> us[i].sequence != sequence
    ensures k < |us| ==> us[k].sequence == sequence
  {
    if us == [] || us[0].sequence == sequence then 0 else 1 + FindUnAck(us[1..], sequence)
  }

  // on_column_ack_message
  function OnAck(p: Peer, sequence: uint32): Peer {
    var k := FindUnAck(p.unacked, sequence);
    if k < |p.unacked| then p.(phase := Wait, unacked := p.unacked[..k] + p.unacked[k + 1..]) else p
  }

  // An acknowledgement takes exactly its message out of the list, and the peer waits; one
  // that names no queued message changes nothing.
  lemma AckForgets(p: Peer, sequence: uint32)
    requires forall i, j :: 0 <= i < j < |p.unacked| ==> p.unacked[i].sequence < p.unacked[j].sequence
    ensures var r := OnAck(p, sequence);
      && (forall u :: u in r.unacked <==> u in p.unacked && u.sequence != sequence)
      && (forall i, j :: 0 <= i < j < |r.unacked| ==> r.unacked[i].sequence < r.unacked[j].sequence)
      && r == p.(unacked := r.unacked, phase := if r.unacked == p.unacked then p.phase else Wait)
  {
    hide FindUnAck;
    var k := FindUnAck(p.unacked, sequence);
    if k < |p.unacked| {
      Unlinked(p.unacked, k);
      assert p.unacked[k] in p.unacked;
    }
  }

  lemma Unlinked(us: seq<UnAck>, k: nat)
    requires k < |us| && forall i, j :: 0 <= i < j < |us| ==> us[i].sequence < us[j].sequence
    ensures var r := us[..k] + us[k + 1..];
      && (forall u :: u in r <==> u in us && u.sequence != us[k].sequence)
      && (forall i, j :: 0 <= i < j < |r| ==> r[i].sequence < r[j].sequence)
  {
    var r := us[..k] + us[k + 1..];
    assert forall i :: 0 <= i < |r| ==> r[i] == us[if i < k then i else i + 1];
    forall u | u in us && u.sequence != us[k].sequence ensures u in r {
      var i :| 0 <= i < |us| && us[i] == u;
      assert r[if i < k then i else i - 1] == u;
    }
  }

  lemma {:induction false} FindUnAckIs(us: seq<UnAck>, sequence: uint32, k: nat)
    requires k <= |us| && (forall i :: 0 <= i < k ==> us[i].sequence != sequence)
    requires k < |us| ==> us[k].sequence == sequence
    ensures FindUnAck(us, sequence) == k
  {
    if k > 0 {
      FindUnAckIs(us[1..], sequence, k - 1);
    }
  }

  // ---------------------------------------------------------------- backoff

  function Pow2(k: nat): (p: nat)
    ensures p >= 1
  {
    if k == 0 then 1 else 2 * Pow2(k - 1)
  }

  // The timeout, in milliseconds, that the k-th retransmission of a message sets.
  function Timeout(k: nat): uint32 {
    if k == 0 then DEFAULT_RETRANSMISSION_TIME else Doubled(Timeout(k - 1))
  }

  lemma {:induction false} Pow2Grows(i: nat, j: nat)
    requires i <= j
    ensures Pow2(i) <= Pow2(j)
  {
    if i < j {
      Pow2Grows(i, j - 1);
    }
  }

  lemma Pow2Values()
    ensures Pow2(22) == 4194304 && Pow2(23) == 8388608
  {
    assert Pow2(4) == 16 && Pow2(8) == 256 && Pow2(12) == 4096 && Pow2(16) == 65536 && Pow2(20) == 1048576;
  }

  // The doubling is exact up to the 22nd timeout and never after it.
  lemma {:induction false} TimeoutExact(k: nat)
    ensures Timeout(k) == 1000 * Pow2(k) <==> k <= 22
  {
    Pow2Values();
    if k == 0 {
    } else if k <= 22 {
      TimeoutExact(k - 1);
      Pow2Grows(k, 22);
    } else {
      Pow2Grows(23, k);
    }
  }

  // From the 29th timeout on the wrapped value is 0, and stays 0: every retransmission
  // then sets a timer that expires at once.
  lemma {:induction false} TimeoutCollapses(k: nat)
    ensures Timeout(k) == 0 <==> k >= 29
  {
    hide Pow2;
    if k <= 22 {
      TimeoutExact(k);
    } else {
      TimeoutCollapses(k - 1);
      WrappedTimeouts();
    }
  }

  lemma WrappedTimeouts()
    ensures Timeout(22) == 4194304000 && Timeout(23) == 4093640704
      && Timeout(24) == 3892314112 && Timeout(25) == 3489660928
    ensures Timeout(26) == 2684354560 && Timeout(27) == 1073741824 && Timeout(28) == 2147483648 && Timeout(29) == 0
  {
    Pow2Values();
    TimeoutExact(22);
    hide Pow2;
  }

  // The timer of the k-th message expires n times.
  function Expire(p: Peer, k: nat, n: nat): (r: Peer)
    requires k < |p.unacked|
    ensures |r.unacked| == |p.unacked|
  {
    if n == 0 then p else OnTimeout(Expire(p, k, n - 1), k).peer
  }

  // A message is first sent with Timeout(0), and its n-th retransmission, which sets
  // Timeout(n), leaves Timeout(n + 1) for the next; nothing else changes.
  lemma {:induction false} BackoffSchedule(p: Peer, k: nat, n: nat)
    requires k < |p.unacked| && p.unacked[k].nextTimeout == Timeout(1)
    ensures Expire(p, k, n) == p.(unacked := p.unacked[k := p.unacked[k].(nextTimeout := Timeout(n + 1))])
  {
    if n == 0 {
      assert p.unacked[k := p.unacked[k]] == p.unacked;
    } else {
      BackoffSchedule(p, k, n - 1);
    }
  }

  // The sum of the timeouts: instants, in microseconds, that are each at least a timeout
  // after the one before are 1000 * (2^k - 1) milliseconds from the first to the k-th.
  lemma {:induction false} BackoffLowerBound(at: seq<int>, k: nat)
    requires k < |at| && k <= 23
    requires forall i :: 0 <= i < |at| - 1 ==> at[i + 1] >= at[i] + 1000 * Timeout(i)
    ensures at[k] >= at[0] + 1000 * 1000 * (Pow2(k) - 1)
  {
    if k > 0 {
      BackoffLowerBound(at, k - 1);
      TimeoutExact(k - 1);
    }
  }
}

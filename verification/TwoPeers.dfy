// The two-peer move protocol: two clients of client/src/client.c and the datagrams in
// flight between them, as a transition system. The network may lose, duplicate and
// reorder datagrams; a failed send is a loss.

module TwoPeers {
  import opened Words
  import opened Board
  import opened Codec
  import opened Peer

  datatype Side = A | B

  datatype System = System(a: Peer, b: Peer, toA: seq<Message>, toB: seq<Message>)

  // The same system with the sides exchanged.
  function Mirror(s: System): System {
    System(s.b, s.a, s.toB, s.toA)
  }

  // Exactly one of the two clients is started with start = 1.
  function Init(aStarts: bool): System {
    System(Begin(aStarts), Begin(!aStarts), [], [])
  }

  // What happens next at one side: the player enters a number, the timer of the k-th
  // unacknowledged message expires, the first datagram in flight to the side arrives, or
  // the network tampers with the i-th one.
  datatype Step =
    | Stdin(side: Side, move: int)
    | Retransmit(side: Side, k: nat)
    | Deliver(side: Side)
    | Lose(side: Side, i: nat)
    | Duplicate(side: Side, i: nat)
    | Reorder(side: Side, i: nat)

  function React(s: System, r: Reaction): System {
    s.(a := r.peer, toB := s.toB + r.sent)
  }

  // A step at side A. A step that is not possible changes nothing, and neither does one
  // of a process that has exited, except that its datagrams vanish.
  function StepA(s: System, st: Step): System {
    match st
    case Stdin(_, move) => if s.a.outcome.Playing? then React(s, OnStdin(s.a, move)) else s
    case Retransmit(_, k) => if s.a.outcome.Playing? && k < |s.a.unacked| then React(s, OnTimeout(s.a, k)) else s
    case Deliver(_) =>
      if s.toA == [] then s
      else
        var rest := s.(toA := s.toA[1..]);
        if !s.a.outcome.Playing? then rest
        else
          (match s.toA[0]
           case Column(sequence, column) => React(rest, OnColumn(s.a, sequence, column))
           case ColumnAck(sequence) => rest.(a := OnAck(s.a, sequence))
           case _ => rest)
    case Lose(_, i) => if i < |s.toA| then s.(toA := s.toA[..i] + s.toA[i + 1..]) else s
    case Duplicate(_, i) => if i < |s.toA| then s.(toA := s.toA[..i] + [s.toA[i]] + s.toA[i..]) else s
    case Reorder(_, i) =>
      if i + 1 < |s.toA| then s.(toA := s.toA[i := s.toA[i + 1]][i + 1 := s.toA[i]]) else s
  }

  function Next(s: System, st: Step): System {
    if st.side.A? then StepA(s, st) else Mirror(StepA(Mirror(s), st))
  }

  function Run(s: System, steps: seq<Step>): System {
    if steps == [] then s else Next(Run(s, steps[..|steps| - 1]), steps[|steps| - 1])
  }

  // ---------------------------------------------------------------- the invariant

  function Mine(p: Peer): seq<int> {
    ColumnsOf(p.history, PLAYER_1)
  }

  function Theirs(p: Peer): seq<int> {
    ColumnsOf(p.history, PLAYER_2)
  }

  // The board replays a legal game, the counters count its moves, and the process has
  // exited exactly when the game is won.
  ghost predicate Local(p: Peer) {
    && Game(p.history) && p.board == Replay(p.history)
    && p.nextSequence == |Mine(p)| && p.nextExpected == |Theirs(p)|
    && (p.outcome.Playing? <==> WinnerOf(p.board.field) == 0)
    && (p.outcome.Won? ==> p.history != [] && Last(p.history).player == PLAYER_1)
    && (p.outcome.Lost? ==> p.history != [] && Last(p.history).player == PLAYER_2)
  }

  // A column message, queued or in flight, is one of the sender's moves.
  predicate IsMove(p: Peer, sequence: int, column: int) {
    0 <= sequence < |Mine(p)| && Mine(p)[sequence] == column
  }

  // The unacknowledged list is in strictly increasing order of sequence.
  ghost predicate Queued(p: Peer) {
    && (forall i :: 0 <= i < |p.unacked| ==> IsMove(p, p.unacked[i].sequence, p.unacked[i].column))
    && (forall i, j :: 0 <= i < j < |p.unacked| ==> p.unacked[i].sequence < p.unacked[j].sequence)
  }

  // What p has in flight: its moves, and acknowledgements of moves it has accepted.
  predicate Honest(p: Peer, m: Message) {
    match m
    case Column(sequence, column) => IsMove(p, sequence, column)
    case ColumnAck(sequence) => sequence < |Theirs(p)|
    case _ => false
  }

  ghost predicate AllHonest(p: Peer, channel: seq<Message>) {
    forall m :: m in channel ==> Honest(p, m)
  }

  // A move of p that q has not accepted is still in p's unacknowledged list.
  ghost predicate Kept(p: Peer, q: Peer) {
    |Mine(p)| > |Theirs(q)| ==> exists i :: 0 <= i < |p.unacked| && p.unacked[i].sequence == |Theirs(q)|
  }

  // Both peers have recorded the same moves.
  predicate Even(p: Peer, q: Peer) {
    p.history == Flip(q.history)
  }

  // p has made one move that q has not accepted yet, and otherwise they are even.
  predicate Ahead(p: Peer, q: Peer) {
    p.history != [] && Before(p.history) == Flip(q.history) && Last(p.history).player == PLAYER_1
  }

  function TurnOf(p: Peer): nat {
    if p.outcome.Playing? && p.phase.Turn? then 1 else 0
  }

  function Outstanding(p: Peer, q: Peer): int {
    p.nextSequence - q.nextExpected
  }

  // The turns held by running peers and the moves sent but not yet accepted.
  function Token(s: System): int {
    TurnOf(s.a) + TurnOf(s.b) + Outstanding(s.a, s.b) + Outstanding(s.b, s.a)
  }

  ghost predicate Inv(s: System) {
    && Local(s.a) && Local(s.b)
    && Queued(s.a) && Queued(s.b)
    && AllHonest(s.a, s.toB) && AllHonest(s.b, s.toA)
    && Kept(s.a, s.b) && Kept(s.b, s.a)
    && (Even(s.a, s.b) || Ahead(s.a, s.b) || Ahead(s.b, s.a))
    && Token(s) <= 1
  }

  // ---------------------------------------------------------------- histories

  lemma EvenSymmetric(p: Peer, q: Peer)
    requires Even(p, q)
    ensures Even(q, p)
  {
    FlipFlip(q.history);
  }

  // What the relation of the histories says about the counters and the boards.
  lemma Counters(p: Peer, q: Peer)
    ensures Even(p, q) ==> Mine(p) == Theirs(q) && Theirs(p) == Mine(q)
    ensures Ahead(p, q) ==> Mine(p) == Theirs(q) + [Last(p.history).column] && Theirs(p) == Mine(q)
  {
    FlipColumns(q.history, PLAYER_1);
    FlipColumns(q.history, PLAYER_2);
  }

  // No counter of a legal game ever wraps.
  lemma NoWrap(p: Peer)
    requires Local(p)
    ensures p.nextSequence + p.nextExpected == |p.history| <= ROWS * COLS
    ensures Wrap32(p.nextSequence + 1) == p.nextSequence + 1 && Wrap32(p.nextExpected + 1) == p.nextExpected + 1
  {
    hide WinnerOf, Replay, Game, ColumnsOf;
    PieceConservation(p.history);
  }

  lemma HonestGrows(p: Peer, r: Peer, channel: seq<Message>)
    requires AllHonest(p, channel) && Mine(p) <= Mine(r) && |Theirs(p)| <= |Theirs(r)|
    ensures AllHonest(r, channel)
  {
    hide ColumnsOf;
  }

  // What the relation of the histories says about the moves outstanding.
  lemma Outstandings(p: Peer, q: Peer)
    requires Local(p) && Local(q)
    ensures Even(p, q) ==> Outstanding(p, q) == 0 && Outstanding(q, p) == 0
    ensures Ahead(p, q) ==> Outstanding(p, q) == 1 && Outstanding(q, p) == 0
  {
    hide ColumnsOf, Game, Replay, WinnerOf;
    Counters(p, q);
  }

  lemma Sending(p: Peer, channel: seq<Message>, m: Message)
    requires AllHonest(p, channel) && Honest(p, m)
    ensures AllHonest(p, channel + [m])
  {
    hide Honest;
  }

  // ---------------------------------------------------------------- a move is made

  lemma MoveIsLocal(p: Peer, c: int)
    requires Local(p) && p.outcome.Playing? && p.phase.Turn? && CanMove(p.board, c)
    ensures var r := OnStdin(p, c).peer;
      && Local(r) && Mine(r) == Mine(p) + [c] && Theirs(r) == Theirs(p)
      && r.history == p.history + [Move(c, PLAYER_1)] && r.unacked == p.unacked + [UnAck(|Mine(p)|, c, 2000)]
      && TurnOf(r) == 0 && (r.outcome.Playing? ==> r.phase.TurnAck?)
    ensures OnStdin(p, c).sent == [Column(|Mine(p)|, c)]
  {
    hide WinnerOf, Replay, Game, ColumnsOf;
    NoWrap(p);
    Extend(p.history, c, PLAYER_1);
  }

  // A new move is queued, in flight, and puts its sender ahead.
  lemma MoveIsSent(p: Peer, r: Peer, q: Peer, c: int, t: uint32, channel: seq<Message>)
    requires Queued(p) && AllHonest(p, channel) && Even(p, q)
    requires Mine(r) == Mine(p) + [c] && Theirs(r) == Theirs(p) && |Mine(p)| < 0x1_0000 && 0 <= c < COLS
    requires r.history == p.history + [Move(c, PLAYER_1)] && r.unacked == p.unacked + [UnAck(|Mine(p)|, c, t)]
    ensures Queued(r) && AllHonest(r, channel + [Column(|Mine(p)|, c)]) && Kept(r, q) && Ahead(r, q)
  {
    hide ColumnsOf;
    Counters(p, q);
    HonestGrows(p, r, channel);
    Sending(r, channel, Column(|Mine(p)|, c));
    assert r.unacked[|p.unacked|].sequence == |Theirs(q)|;
  }

  lemma StdinKeeps(s: System, move: int)
    requires Inv(s) && s.a.outcome.Playing?
    ensures Inv(React(s, OnStdin(s.a, move)))
  {
    hide Local, Queued, AllHonest, Kept, Mine, Theirs, OnStdin, TurnOf, Outstanding;
    var p, q := s.a, s.b;
    if p.phase.Turn? && CanMove(p.board, move) {
      Outstandings(p, q);
      Outstandings(q, p);
      NoWrap(p);
      CountersAre(p);
      HasTurn(p);
      MoveIsLocal(p, move);
      var r := OnStdin(p, move).peer;
      MoveIsSent(p, r, q, move, 2000, s.toB);
      Outstandings(r, q);
      KeptStill(q, p, r);
    } else {
      StdinIgnored(p, move);
      assert s.toB + [] == s.toB;
    }
  }

  lemma StdinIgnored(p: Peer, move: int)
    requires !(p.phase.Turn? && CanMove(p.board, move))
    ensures OnStdin(p, move) == Reaction(p, [])
  {
  }

  lemma CountersAre(p: Peer)
    requires Local(p)
    ensures p.nextSequence == |Mine(p)| && p.nextExpected == |Theirs(p)|
  {
  }

  lemma HasTurn(p: Peer)
    ensures TurnOf(p) == if p.outcome.Playing? && p.phase.Turn? then 1 else 0
  {
  }

  lemma KeptStill(q: Peer, p: Peer, r: Peer)
    requires Kept(q, p) && |Theirs(p)| == |Theirs(r)|
    ensures Kept(q, r)
  {
  }

  // ---------------------------------------------------------------- a timer expires

  lemma TimeoutKeeps(s: System, k: nat)
    requires Inv(s) && k < |s.a.unacked|
    ensures Inv(React(s, OnTimeout(s.a, k)))
  {
    hide Game, Replay, WinnerOf, ColumnsOf, AllHonest;
    var p, r := s.a, OnTimeout(s.a, k).peer;
    HonestGrows(p, r, s.toB);
    Sending(r, s.toB, Column(p.unacked[k].sequence, p.unacked[k].column));
    assert forall i :: 0 <= i < |p.unacked| ==> r.unacked[i].sequence == p.unacked[i].sequence;
  }

  // ---------------------------------------------------------------- a column message arrives

  // A column message of q is never ahead of what p expects, and when it is the one
  // expected, it is q's outstanding move, valid on p's board.
  lemma ExpectedMove(p: Peer, q: Peer, sequence: uint32, column: uint16)
    requires Local(p) && Local(q) && Honest(q, Column(sequence, column))
    requires Even(p, q) || Ahead(p, q) || Ahead(q, p)
    ensures sequence <= p.nextExpected
    ensures sequence == p.nextExpected ==> Ahead(q, p) && column == Last(q.history).column && CanMove(p.board, column)
  {
    hide Replay, WinnerOf, ColumnsOf;
    if Even(p, q) {
      EvenSymmetric(p, q);
      Counters(q, p);
    } else if Ahead(p, q) {
      Counters(p, q);
    } else {
      Counters(q, p);
      FlipNegates(p.history);
    }
  }

  lemma AcceptIsLocal(p: Peer, c: uint16)
    requires Local(p) && p.outcome.Playing? && CanMove(p.board, c)
    ensures var r := OnColumn(p, p.nextExpected, c).peer;
      && Local(r) && Theirs(r) == Theirs(p) + [c] && Mine(r) == Mine(p)
      && r.history == p.history + [Move(c, PLAYER_2)] && r.unacked == p.unacked
      && TurnOf(r) <= 1 && (r.outcome.Playing? ==> TurnOf(r) == 1)
    ensures OnColumn(p, p.nextExpected, c).sent == [ColumnAck(p.nextExpected)]
  {
    hide WinnerOf, Replay, Game, ColumnsOf;
    NoWrap(p);
    Extend(p.history, c, PLAYER_2);
  }

  lemma AcceptEvens(p: Peer, q: Peer, r: Peer)
    requires Ahead(q, p) && r.history == p.history + [Move(Last(q.history).column, PLAYER_2)]
    ensures Even(q, r) && Even(r, q)
  {
    Extend(p.history, Last(q.history).column, PLAYER_2);
    assert q.history == Before(q.history) + [Last(q.history)];
    EvenSymmetric(q, r);
  }

  lemma AcceptKeeps(s: System, c: uint16, channel: seq<Message>)
    requires Inv(s) && s.a.outcome.Playing? && Ahead(s.b, s.a) && c == Last(s.b.history).column && CanMove(s.a.board, c)
    requires AllHonest(s.b, channel)
    ensures Inv(React(s.(toA := channel), OnColumn(s.a, s.a.nextExpected, c)))
  {
    hide Local, AllHonest, Mine, Theirs, OnColumn, TurnOf, Outstanding;
    var p, q, r := s.a, s.b, OnColumn(s.a, s.a.nextExpected, c).peer;
    AcceptIsLocal(p, c);
    AcceptEvens(p, q, r);
    Outstandings(q, p);
    Outstandings(r, q);
    NothingKept(r, q);
    HonestGrows(p, r, s.toB);
    CountersAre(p);
    AckIsHonest(r, p.nextExpected);
    Sending(r, s.toB, ColumnAck(p.nextExpected));
    QueuedStill(p, r);
  }

  lemma AckIsHonest(p: Peer, sequence: uint32)
    requires sequence < |Theirs(p)|
    ensures Honest(p, ColumnAck(sequence))
  {
  }

  lemma QueuedStill(p: Peer, r: Peer)
    requires Queued(p) && Mine(r) == Mine(p) && r.unacked == p.unacked
    ensures Queued(r)
  {
  }

  lemma NothingKept(p: Peer, q: Peer)
    requires Even(p, q)
    ensures Kept(p, q) && Kept(q, p)
  {
    Counters(p, q);
  }

  lemma ColumnKeeps(s: System, sequence: uint32, column: uint16, channel: seq<Message>)
    requires Inv(s) && s.a.outcome.Playing? && Honest(s.b, Column(sequence, column)) && AllHonest(s.b, channel)
    ensures Inv(React(s.(toA := channel), OnColumn(s.a, sequence, column)))
  {
    hide Local, Queued, AllHonest, Kept, Honest;
    ExpectedMove(s.a, s.b, sequence, column);
    if sequence == s.a.nextExpected {
      AcceptKeeps(s, column, channel);
    } else {
      assert s.toB + [] == s.toB;
    }
  }

  // ---------------------------------------------------------------- an acknowledgement arrives

  lemma AckKeeps(s: System, sequence: uint32, channel: seq<Message>)
    requires Inv(s) && sequence < |Theirs(s.b)| && AllHonest(s.b, channel)
    ensures Inv(s.(toA := channel, a := OnAck(s.a, sequence)))
  {
    hide WinnerOf, ColumnsOf, Game, Replay, AllHonest, FindUnAck, Queued, Kept;
    var p, r := s.a, OnAck(s.a, sequence);
    HonestGrows(p, r, s.toB);
    AckUnlinks(p, s.b, sequence);
  }

  lemma HistoryOnly(p: Peer, r: Peer)
    requires r.history == p.history
    ensures Mine(r) == Mine(p) && Theirs(r) == Theirs(p)
  {
  }

  // Unlinking an accepted move keeps the rest in order, and a move not yet accepted.
  lemma AckUnlinks(p: Peer, q: Peer, sequence: uint32)
    requires Queued(p) && Kept(p, q) && Kept(q, p) && sequence < |Theirs(q)|
    ensures var r := OnAck(p, sequence); Queued(r) && Kept(r, q) && Kept(q, r)
  {
    hide ColumnsOf, FindUnAck, Theirs;
    assert Theirs(OnAck(p, sequence)) == Theirs(p) by {
      HistoryOnly(p, OnAck(p, sequence));
    }
    var r := OnAck(p, sequence);
    var k := FindUnAck(p.unacked, sequence);
    if k < |p.unacked| {
      assert forall i :: 0 <= i < |r.unacked| ==> r.unacked[i] == p.unacked[if i < k then i else i + 1];
      if |Mine(p)| > |Theirs(q)| {
        var i :| 0 <= i < |p.unacked| && p.unacked[i].sequence == |Theirs(q)|;
        assert r.unacked[if i < k then i else i - 1] == p.unacked[i];
      }
    }
  }

  // ---------------------------------------------------------------- every step

  lemma StepAKeeps(s: System, st: Step)
    requires Inv(s)
    ensures Inv(StepA(s, st))
  {
    hide Local, Queued, Kept, Honest, OnStdin, OnTimeout, OnColumn, OnAck;
    match st
    case Stdin(_, move) =>
      if s.a.outcome.Playing? {
        StdinKeeps(s, move);
      }
    case Retransmit(_, k) =>
      if s.a.outcome.Playing? && k < |s.a.unacked| {
        TimeoutKeeps(s, k);
      }
    case Deliver(_) =>
      if s.toA != [] {
        var rest := s.toA[1..];
        assert s.toA[0] in s.toA && AllHonest(s.b, rest);
        if s.a.outcome.Playing? {
          DeliverKeeps(s, s.toA[0], rest);
        }
      }
    case Lose(_, i) =>
    case Duplicate(_, i) =>
    case Reorder(_, i) =>
  }

  lemma DeliverKeeps(s: System, m: Message, channel: seq<Message>)
    requires Inv(s) && s.a.outcome.Playing? && Honest(s.b, m) && AllHonest(s.b, channel)
    ensures m.Column? ==> Inv(React(s.(toA := channel), OnColumn(s.a, m.sequence, m.column)))
    ensures m.ColumnAck? ==> Inv(s.(toA := channel, a := OnAck(s.a, m.sequence)))
    ensures m.Column? || m.ColumnAck?
  {
    hide Inv, AllHonest, OnColumn, OnAck;
    match m
    case Column(sequence, column) => ColumnKeeps(s, sequence, column, channel);
    case ColumnAck(sequence) => AckKeeps(s, sequence, channel);
    case _ =>
  }

  lemma MirrorInv(s: System)
    ensures Inv(Mirror(s)) <==> Inv(s)
  {
    hide Local, Queued, AllHonest, Kept;
    if Even(s.a, s.b) {
      EvenSymmetric(s.a, s.b);
    }
    if Even(s.b, s.a) {
      EvenSymmetric(s.b, s.a);
    }
  }

  lemma NextKeeps(s: System, st: Step)
    requires Inv(s)
    ensures Inv(Next(s, st))
  {
    hide Inv, StepA;
    MirrorInv(s);
    StepAKeeps(if st.side.A? then s else Mirror(s), st);
    MirrorInv(StepA(Mirror(s), st));
  }

  lemma InitInv(aStarts: bool)
    ensures Inv(Init(aStarts))
  {
    hide WinnerOf;
    EmptyHasNoWinner();
  }

  lemma {:induction false} RunKeeps(aStarts: bool, steps: seq<Step>)
    ensures Inv(Run(Init(aStarts), steps))
  {
    hide Inv, Next;
    if steps == [] {
      InitInv(aStarts);
    } else {
      RunKeeps(aStarts, steps[..|steps| - 1]);
      NextKeeps(Run(Init(aStarts), steps[..|steps| - 1]), steps[|steps| - 1]);
    }
  }

  // ---------------------------------------------------------------- what holds in every run

  // Turn safety on any network: the turns held and the moves not yet accepted are at most
  // one together, so the players never both hold the turn.
  lemma TurnSafety(aStarts: bool, steps: seq<Step>)
    ensures Token(Run(Init(aStarts), steps)) <= 1
    ensures var s := Run(Init(aStarts), steps);
      && 0 <= Outstanding(s.a, s.b) && 0 <= Outstanding(s.b, s.a)
      && !(s.a.outcome.Playing? && s.a.phase.Turn? && s.b.outcome.Playing? && s.b.phase.Turn?)
  {
    RunKeeps(aStarts, steps);
    var s := Run(Init(aStarts), steps);
    hide Local, Run;
    Outstandings(s.a, s.b);
    Outstandings(s.b, s.a);
  }

  // Replicated board agreement: the histories are the same, or one side is ahead by its
  // one unaccepted move; when they are the same the boards negate each other.
  lemma BoardAgreement(aStarts: bool, steps: seq<Step>)
    ensures var s := Run(Init(aStarts), steps);
      && (|| Even(s.a, s.b)
          || (Ahead(s.a, s.b) && Outstanding(s.a, s.b) == 1)
          || (Ahead(s.b, s.a) && Outstanding(s.b, s.a) == 1))
      && (Even(s.a, s.b) ==> s.a.board == Negate(s.b.board))
      && s.a.board == Replay(s.a.history) && s.b.board == Replay(s.b.history)
  {
    RunKeeps(aStarts, steps);
    var s := Run(Init(aStarts), steps);
    hide Run, Game, Replay, WinnerOf, ColumnsOf;
    Outstandings(s.a, s.b);
    Outstandings(s.b, s.a);
    FlipNegates(s.b.history);
  }

  ghost predicate InQueue(p: Peer, sequence: int, column: int) {
    exists i :: 0 <= i < |p.unacked| && p.unacked[i].sequence == sequence && p.unacked[i].column == column
  }

  // Acknowledgements in flight to p name moves q has accepted; p's list is in strictly
  // increasing order below next_sequence; and a move q has not accepted is still queued,
  // with its column.
  ghost predicate SafelyQueued(p: Peer, q: Peer, toP: seq<Message>) {
    && (forall m :: m in toP && m.ColumnAck? ==> m.sequence < q.nextExpected)
    && (forall i, j :: 0 <= i < j < |p.unacked| ==> p.unacked[i].sequence < p.unacked[j].sequence)
    && (forall i :: 0 <= i < |p.unacked| ==> p.unacked[i].sequence < p.nextSequence)
    && (q.nextExpected < p.nextSequence ==>
          p.history != [] && InQueue(p, q.nextExpected, Last(p.history).column))
  }

  lemma QueuedSafely(p: Peer, q: Peer, toP: seq<Message>)
    requires Local(p) && Local(q) && Queued(p) && AllHonest(q, toP) && Kept(p, q)
    requires Even(p, q) || Ahead(p, q) || Ahead(q, p)
    ensures SafelyQueued(p, q, toP)
  {
    hide Game, Replay, WinnerOf, ColumnsOf;
    Counters(p, q);
    Counters(q, p);
  }

  // Retransmission safety.
  lemma RetransmissionSafety(aStarts: bool, steps: seq<Step>)
    ensures var s := Run(Init(aStarts), steps); SafelyQueued(s.a, s.b, s.toA) && SafelyQueued(s.b, s.a, s.toB)
  {
    RunKeeps(aStarts, steps);
    var s := Run(Init(aStarts), steps);
    hide Run, Local, Queued, AllHonest, Kept;
    QueuedSafely(s.a, s.b, s.toA);
    if Even(s.a, s.b) {
      EvenSymmetric(s.a, s.b);
    }
    QueuedSafely(s.b, s.a, s.toB);
  }

  // A message that takes neither defensive branch of on_column_message at p.
  predicate Unsurprising(p: Peer, m: Message) {
    m.Column? ==> m.sequence <= p.nextExpected && (m.sequence == p.nextExpected ==> CanMove(p.board, m.column))
  }

  // The sequence-gap branch and the receiver's "Invalid Move!" branch are dead.
  lemma DefensiveBranchesDead(aStarts: bool, steps: seq<Step>)
    ensures forall m :: m in Run(Init(aStarts), steps).toA ==> Unsurprising(Run(Init(aStarts), steps).a, m)
    ensures forall m :: m in Run(Init(aStarts), steps).toB ==> Unsurprising(Run(Init(aStarts), steps).b, m)
  {
    RunKeeps(aStarts, steps);
    var s := Run(Init(aStarts), steps);
    hide Run, Local, Honest;
    forall m | m in s.toA ensures Unsurprising(s.a, m) {
      if m.Column? {
        ExpectedMove(s.a, s.b, m.sequence, m.column);
      }
    }
    forall m | m in s.toB ensures Unsurprising(s.b, m) {
      if m.Column? {
        if Even(s.a, s.b) {
          EvenSymmetric(s.a, s.b);
        }
        ExpectedMove(s.b, s.a, m.sequence, m.column);
      }
    }
  }

  ghost predicate CountsPieces(p: Peer) {
    && Stacked(p.board)
    && p.nextSequence + p.nextExpected == |Filled(p.board.field)| == Sum(p.board.nextRow)
    && p.nextSequence + p.nextExpected <= ROWS * COLS
  }

  // Piece conservation: the counters add up to the pieces on the board, so neither wraps.
  lemma CountersCountPieces(aStarts: bool, steps: seq<Step>)
    ensures var s := Run(Init(aStarts), steps); CountsPieces(s.a) && CountsPieces(s.b)
  {
    RunKeeps(aStarts, steps);
    var s := Run(Init(aStarts), steps);
    hide Run, Game, Replay, WinnerOf, ColumnsOf;
    PieceConservation(s.a.history);
    PieceConservation(s.b.history);
  }

  // A peer that exited with a win has four of its own colour, one that exited with a loss
  // has four of the other's and the other has won; they never both win or both lose; and
  // a winner whose peer is still playing has its last move outstanding.
  ghost predicate RightVerdict(p: Peer, q: Peer) {
    && (p.outcome.Won? ==> WinnerOf(p.board.field) == PLAYER_1 && !q.outcome.Won?)
    && (p.outcome.Lost? ==> WinnerOf(p.board.field) == PLAYER_2 && q.outcome.Won?)
    && (!p.outcome.Playing? && q.outcome.Playing? ==> p.outcome.Won? && Ahead(p, q))
  }

  lemma OneVerdict(p: Peer, q: Peer)
    requires Local(p) && Local(q) && (Even(p, q) || Ahead(p, q) || Ahead(q, p))
    ensures RightVerdict(p, q)
  {
    hide WinnerOf, ColumnsOf, Replay, HasFour;
    if !p.outcome.Playing? {
      UnambiguousWinner(p.history);
    }
    if Even(p, q) || Ahead(p, q) {
      FlipNegates(q.history);
      NegateWinner(q.board.field);
    } else {
      FlipNegates(p.history);
      NegateWinner(p.board.field);
    }
  }

  // The verdicts go to the right peers.
  lemma Verdicts(aStarts: bool, steps: seq<Step>)
    ensures var s := Run(Init(aStarts), steps); RightVerdict(s.a, s.b) && RightVerdict(s.b, s.a)
  {
    RunKeeps(aStarts, steps);
    var s := Run(Init(aStarts), steps);
    hide Run, Local;
    OneVerdict(s.a, s.b);
    if Even(s.a, s.b) {
      EvenSymmetric(s.a, s.b);
    }
    OneVerdict(s.b, s.a);
  }
}

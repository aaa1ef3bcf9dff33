// When the turn is conserved. A delayed acknowledgement overwrites TURN with WAIT
// (client/src/client.c:164), so on a reordering network the turn can be lost for good;
// as long as no acknowledgement comes that late the turn is conserved exactly, and on an
// order-preserving network none ever does.

module Conservation {
  import opened Words
  import opened Board
  import opened Codec
  import opened Peer
  import opened TwoPeers

  // Somebody is still playing.
  predicate Live(s: System) {
    s.a.outcome.Playing? || s.b.outcome.Playing?
  }

  // The acknowledgement of an unacknowledged move is about to reach a peer that already
  // has the turn again.
  predicate LateAckAtA(s: System) {
    && s.a.outcome.Playing? && s.a.phase.Turn?
    && s.toA != [] && s.toA[0].ColumnAck?
    && FindUnAck(s.a.unacked, s.toA[0].sequence) < |s.a.unacked|
  }

  predicate LateAck(s: System, st: Step) {
    st.Deliver? && LateAckAtA(if st.side.A? then s else Mirror(s))
  }

  // No acknowledgement in the run came late.
  predicate OnTime(s: System, steps: seq<Step>) {
    steps == [] ||
    (OnTime(s, steps[..|steps| - 1]) && !LateAck(Run(s, steps[..|steps| - 1]), steps[|steps| - 1]))
  }

  // ---------------------------------------------------------------- one step

  lemma StepALive(s: System, st: Step)
    ensures Live(StepA(s, st)) ==> Live(s)
    ensures s.b.outcome == StepA(s, st).b.outcome
  {
    hide WinnerOf, CanMove;
  }

  // Winning moves end the game at both sides.
  lemma LossEndsGame(s: System)
    requires Inv(s) && s.a.outcome.Lost?
    ensures !Live(s)
  {
    hide Local;
    OneVerdict(s.a, s.b);
  }

  lemma InvPeers(s: System)
    requires Inv(s)
    ensures Local(s.a) && Local(s.b) && (Even(s.a, s.b) || Ahead(s.a, s.b) || Ahead(s.b, s.a)) && Token(s) <= 1
  {
  }

  lemma StdinToken(s: System, move: int)
    requires Inv(s) && s.a.outcome.Playing?
    ensures Token(React(s, OnStdin(s.a, move))) == Token(s)
  {
    hide WinnerOf;
    NoWrap(s.a);
  }

  lemma ColumnToken(s: System, sequence: uint32, column: uint16, channel: seq<Message>)
    requires Inv(s) && s.a.outcome.Playing? && Honest(s.b, Column(sequence, column)) && AllHonest(s.b, channel)
    requires Live(React(s.(toA := channel), OnColumn(s.a, sequence, column)))
    ensures Token(React(s.(toA := channel), OnColumn(s.a, sequence, column))) == Token(s)
  {
    hide Inv, Live, WinnerOf, ColumnsOf, Local, Honest, AllHonest;
    var r := React(s.(toA := channel), OnColumn(s.a, sequence, column));
    ColumnKeeps(s, sequence, column, channel);
    if r.a.outcome.Lost? {
      LossEndsGame(r);
    }
    InvPeers(s);
    ExpectedMove(s.a, s.b, sequence, column);
    NoWrap(s.a);
    Outstandings(s.a, s.b);
    Outstandings(s.b, s.a);
  }

  // A step keeps the turn, as long as somebody is still playing, unless it delivers a
  // late acknowledgement, and then it loses it.
  lemma StepAToken(s: System, st: Step)
    requires Inv(s) && Token(s) == 1 && Live(StepA(s, st))
    ensures Token(StepA(s, st)) == if st.Deliver? && LateAckAtA(s) then 0 else 1
  {
    hide Local, Queued, Kept, OnStdin, OnColumn, FindUnAck, Honest;
    match st
    case Stdin(_, move) =>
      if s.a.outcome.Playing? {
        StdinToken(s, move);
      }
    case Retransmit(_, k) =>
    case Deliver(_) =>
      if s.toA != [] && s.a.outcome.Playing? {
        assert Honest(s.b, s.toA[0]) && AllHonest(s.b, s.toA[1..]);
        if s.toA[0].Column? {
          ColumnToken(s, s.toA[0].sequence, s.toA[0].column, s.toA[1..]);
        }
      }
    case Lose(_, i) =>
    case Duplicate(_, i) =>
    case Reorder(_, i) =>
  }

  lemma NextToken(s: System, st: Step)
    requires Inv(s) && Token(s) == 1 && Live(Next(s, st))
    ensures Token(Next(s, st)) == if LateAck(s, st) then 0 else 1
  {
    hide Inv, StepA;
    MirrorInv(s);
    StepAToken(if st.side.A? then s else Mirror(s), st);
  }

  lemma NextLive(s: System, st: Step)
    requires Live(Next(s, st))
    ensures Live(s)
  {
    hide StepA;
    StepALive(if st.side.A? then s else Mirror(s), st);
  }

  // ---------------------------------------------------------------- a lost turn

  // Both peers are playing, nobody has the turn and nothing is outstanding.
  ghost predicate Stalled(s: System) {
    Inv(s) && Live(s) && Token(s) == 0
  }

  lemma StalledMeans(s: System)
    requires Stalled(s)
    ensures Even(s.a, s.b) && s.a.outcome.Playing? && s.b.outcome.Playing?
    ensures !s.a.phase.Turn? && !s.b.phase.Turn?
  {
    hide Local;
    Outstandings(s.a, s.b);
    Outstandings(s.b, s.a);
    OneVerdict(s.a, s.b);
    if Even(s.a, s.b) {
      EvenSymmetric(s.a, s.b);
    }
    OneVerdict(s.b, s.a);
  }

  // What no handler changes while its peer waits and nothing new arrives.
  predicate Unmoved(p: Peer, r: Peer) {
    && r.history == p.history && r.outcome == p.outcome
    && r.nextSequence == p.nextSequence && r.nextExpected == p.nextExpected
    && (!p.phase.Turn? ==> !r.phase.Turn?)
  }

  lemma HandlersUnmoved(p: Peer, move: int, sequence: uint32, column: uint16)
    ensures !p.phase.Turn? ==> Unmoved(p, OnStdin(p, move).peer)
    ensures sequence < p.nextExpected ==> Unmoved(p, OnColumn(p, sequence, column).peer)
    ensures Unmoved(p, OnAck(p, sequence))
    ensures forall k :: 0 <= k < |p.unacked| ==> Unmoved(p, OnTimeout(p, k).peer)
  {
    hide WinnerOf, CanMove, FindUnAck;
  }

  lemma StepAUnmoved(s: System, st: Step)
    requires !s.a.phase.Turn?
    requires s.toA != [] && s.toA[0].Column? ==> s.toA[0].sequence < s.a.nextExpected
    ensures Unmoved(s.a, StepA(s, st).a) && StepA(s, st).b == s.b
  {
    hide OnStdin, OnColumn, OnAck, OnTimeout;
    match st
    case Stdin(_, move) => HandlersUnmoved(s.a, move, 0, 0);
    case Retransmit(_, k) => HandlersUnmoved(s.a, 0, 0, 0);
    case Deliver(_) =>
      if s.toA != [] && s.toA[0].Column? {
        HandlersUnmoved(s.a, 0, s.toA[0].sequence, s.toA[0].column);
      } else if s.toA != [] && s.toA[0].ColumnAck? {
        HandlersUnmoved(s.a, 0, s.toA[0].sequence, 0);
      }
    case _ =>
  }

  // Whatever the players enter and the network does, neither board changes any more.
  lemma StepAStalled(s: System, st: Step)
    requires Stalled(s)
    ensures Stalled(StepA(s, st))
    ensures StepA(s, st).a.history == s.a.history && StepA(s, st).b.history == s.b.history
  {
    hide Inv, StepA;
    StepAKeeps(s, st);
    StalledMeans(s);
    if s.toA != [] && s.toA[0].Column? {
      NothingExpected(s, s.toA[0]);
    }
    StepAUnmoved(s, st);
  }

  lemma NothingExpected(s: System, m: Message)
    requires Inv(s) && Even(s.a, s.b) && m in s.toA && m.Column?
    ensures m.sequence < s.a.nextExpected
  {
    hide Game, Replay, WinnerOf, ColumnsOf;
    EvenSymmetric(s.a, s.b);
    Counters(s.b, s.a);
  }

  lemma MirrorStalled(s: System)
    ensures Stalled(Mirror(s)) <==> Stalled(s)
  {
    hide Inv;
    MirrorInv(s);
  }

  // A lost turn is lost for good: no continuation of the run makes another move.
  lemma {:induction false} StallIsPermanent(s: System, steps: seq<Step>)
    requires Stalled(s)
    ensures Stalled(Run(s, steps))
    ensures Run(s, steps).a.history == s.a.history && Run(s, steps).b.history == s.b.history
  {
    hide Stalled, StepA;
    if steps != [] {
      var prefix, st := steps[..|steps| - 1], steps[|steps| - 1];
      var m := Run(s, prefix);
      StallIsPermanent(s, prefix);
      MirrorStalled(m);
      StepAStalled(if st.side.A? then m else Mirror(m), st);
      MirrorStalled(StepA(Mirror(m), st));
    }
  }

  // ---------------------------------------------------------------- exact conservation

  // On any network, as long as somebody is still playing, the turn is there, held by a
  // peer or under way in a move, if and only if no acknowledgement has come late.
  lemma {:induction false} TurnConserved(aStarts: bool, steps: seq<Step>)
    ensures Live(Run(Init(aStarts), steps)) ==>
      (Token(Run(Init(aStarts), steps)) == 1 <==> OnTime(Init(aStarts), steps))
      && (!OnTime(Init(aStarts), steps) ==> Stalled(Run(Init(aStarts), steps)))
  {
    hide Inv, Next, LateAck, Token;
    var s := Run(Init(aStarts), steps);
    RunKeeps(aStarts, steps);
    if steps == [] {
      InitToken(aStarts);
    } else if Live(s) {
      var prefix, st := steps[..|steps| - 1], steps[|steps| - 1];
      var m := Run(Init(aStarts), prefix);
      NextLive(m, st);
      TurnConserved(aStarts, prefix);
      RunKeeps(aStarts, prefix);
      if OnTime(Init(aStarts), prefix) {
        NextToken(m, st);
      } else {
        StallIsPermanent(m, [st]);
        assert [st][..0] == [];
      }
    }
  }

  lemma InitToken(aStarts: bool)
    ensures Token(Init(aStarts)) == 1
  {
    hide Begin;
    BeginFields(aStarts);
    BeginFields(!aStarts);
  }

  lemma BeginFields(start: bool)
    ensures var p := Begin(start);
      p.nextSequence == 0 && p.nextExpected == 0 && p.outcome.Playing? && (p.phase.Turn? <==> start)
  {
    hide Empty;
  }

  // ---------------------------------------------------------------- order-preserving networks

  predicate NoAck(channel: seq<Message>) {
    forall i :: 0 <= i < |channel| ==> !channel[i].ColumnAck?
  }

  // No acknowledgement follows a column message with sequence n.
  predicate NoAckAfter(channel: seq<Message>, n: int) {
    forall i, j :: 0 <= i < j < |channel| && channel[i].Column? && channel[i].sequence == n ==> !channel[j].ColumnAck?
  }

  // While q's move is outstanding no acknowledgement follows it in flight to p, and while
  // p has the turn no acknowledgement is in flight to p.
  predicate AcksFirst(p: Peer, q: Peer, toP: seq<Message>) {
    && (Outstanding(q, p) == 1 ==> NoAckAfter(toP, p.nextExpected))
    && (TurnOf(p) == 1 ==> NoAck(toP))
  }

  predicate InOrder(s: System) {
    AcksFirst(s.a, s.b, s.toA) && AcksFirst(s.b, s.a, s.toB)
  }

  lemma ChannelSteps(c: seq<Message>, i: nat, n: int)
    requires i < |c|
    ensures NoAck(c) ==> NoAck(c[1..]) && NoAck(c[..i] + c[i + 1..]) && NoAck(c[..i] + [c[i]] + c[i..])
    ensures NoAckAfter(c, n) ==> NoAckAfter(c[1..], n) && NoAckAfter(c[..i] + c[i + 1..], n)
    ensures NoAckAfter(c, n) ==> NoAckAfter(c[..i] + [c[i]] + c[i..], n)
    ensures NoAckAfter(c, n) && c[0].Column? && c[0].sequence == n ==> NoAck(c[1..])
  {
    var lost, twice := c[..i] + c[i + 1..], c[..i] + [c[i]] + c[i..];
    assert forall k :: 0 <= k < |lost| ==> lost[k] == c[if k < i then k else k + 1];
    assert forall k :: 0 <= k < |twice| ==> twice[k] == c[if k <= i then k else k - 1];
  }

  lemma ChannelSends(c: seq<Message>, m: Message, n: int)
    requires m.Column?
    ensures NoAck(c) ==> NoAck(c + [m])
    ensures NoAckAfter(c, n) ==> NoAckAfter(c + [m], n)
    ensures (forall x :: x in c && x.Column? ==> x.sequence != n) ==> NoAckAfter(c + [m], n)
  {
  }

  lemma StdinInOrder(s: System, move: int)
    requires Inv(s) && InOrder(s) && s.a.outcome.Playing?
    ensures InOrder(React(s, OnStdin(s.a, move)))
  {
    hide NoAck, NoAckAfter, Local, Queued, Kept, ColumnsOf, WinnerOf;
    assert s.toB + [] == s.toB;
    if s.a.phase.Turn? && CanMove(s.a.board, move) {
      var p, q := s.a, s.b;
      NoWrap(p);
      CountersAre(p);
      Outstandings(p, q);
      Outstandings(q, p);
      var m := Column(p.nextSequence, move);
      forall x | x in s.toB && x.Column? ensures x.sequence != p.nextSequence {
        assert Honest(p, x);
      }
      ChannelSends(s.toB, m, q.nextExpected);
    }
  }

  lemma TimeoutInOrder(s: System, k: nat)
    requires InOrder(s) && k < |s.a.unacked|
    ensures InOrder(React(s, OnTimeout(s.a, k)))
  {
    hide NoAck, NoAckAfter;
    ChannelSends(s.toB, OnTimeout(s.a, k).sent[0], s.b.nextExpected);
  }

  lemma ColumnInOrder(s: System, sequence: uint32, column: uint16)
    requires Inv(s) && InOrder(s) && s.a.outcome.Playing? && s.toA != [] && s.toA[0] == Column(sequence, column)
    ensures InOrder(React(s.(toA := s.toA[1..]), OnColumn(s.a, sequence, column)))
  {
    hide NoAck, NoAckAfter, Local, Queued, Kept, ColumnsOf, WinnerOf, CanMove;
    var p, q := s.a, s.b;
    assert s.toB + [] == s.toB;
    assert Honest(q, s.toA[0]);
    ExpectedMove(p, q, sequence, column);
    Outstandings(p, q);
    Outstandings(q, p);
    NoWrap(p);
    ChannelSteps(s.toA, 0, p.nextExpected);
  }

  lemma StepAInOrder(s: System, st: Step)
    requires Inv(s) && InOrder(s) && !st.Reorder?
    ensures InOrder(StepA(s, st))
  {
    hide Inv, NoAck, NoAckAfter, OnStdin, OnTimeout, OnColumn;
    match st
    case Stdin(_, move) =>
      if s.a.outcome.Playing? {
        StdinInOrder(s, move);
      }
    case Retransmit(_, k) =>
      if s.a.outcome.Playing? && k < |s.a.unacked| {
        TimeoutInOrder(s, k);
      }
    case Deliver(_) =>
      if s.toA != [] {
        ChannelSteps(s.toA, 0, s.a.nextExpected);
        if s.a.outcome.Playing? && s.toA[0].Column? {
          ColumnInOrder(s, s.toA[0].sequence, s.toA[0].column);
        }
      }
    case Lose(_, i) =>
      if i < |s.toA| {
        ChannelSteps(s.toA, i, s.a.nextExpected);
      }
    case Duplicate(_, i) =>
      if i < |s.toA| {
        ChannelSteps(s.toA, i, s.a.nextExpected);
      }
  }

  lemma NextInOrder(s: System, st: Step)
    requires Inv(s) && InOrder(s) && !st.Reorder?
    ensures InOrder(Next(s, st)) && !LateAck(s, st)
  {
    hide Inv, StepA, NoAckAfter, FindUnAck;
    MirrorInv(s);
    StepAInOrder(if st.side.A? then s else Mirror(s), st);
  }

  // On a network that may lose and duplicate but does not reorder, no acknowledgement is
  // ever late ...
  lemma {:induction false} OrderedIsOnTime(aStarts: bool, steps: seq<Step>)
    requires forall i :: 0 <= i < |steps| ==> !steps[i].Reorder?
    ensures OnTime(Init(aStarts), steps) && InOrder(Run(Init(aStarts), steps))
  {
    hide Inv, Next, LateAck, InOrder;
    if steps == [] {
      InitInOrder(aStarts);
    } else {
      var prefix, st := steps[..|steps| - 1], steps[|steps| - 1];
      OrderedIsOnTime(aStarts, prefix);
      RunKeeps(aStarts, prefix);
      NextInOrder(Run(Init(aStarts), prefix), st);
    }
  }

  lemma InitInOrder(aStarts: bool)
    ensures InOrder(Init(aStarts))
  {
    hide Begin;
    BeginFields(aStarts);
    BeginFields(!aStarts);
  }

  // ... so the turn is conserved exactly while somebody is still playing: the peers never
  // both wait with nothing outstanding.
  lemma OrderedConservesTurn(aStarts: bool, steps: seq<Step>)
    requires forall i :: 0 <= i < |steps| ==> !steps[i].Reorder?
    ensures Live(Run(Init(aStarts), steps)) ==> Token(Run(Init(aStarts), steps)) == 1
  {
    hide Run, OnTime, Token;
    OrderedIsOnTime(aStarts, steps);
    TurnConserved(aStarts, steps);
  }

  // ---------------------------------------------------------------- the boundary

  lemma RunAppend(s: System, steps: seq<Step>, st: Step)
    ensures Run(s, steps + [st]) == Next(Run(s, steps), st)
  {
    assert (steps + [st])[..|steps + [st]| - 1] == steps;
  }

  // Four pieces are needed for four in a row.
  lemma FewPiecesNoWinner(h: History)
    requires Game(h) && |h| < 4
    ensures WinnerOf(Replay(h).field) == 0
  {
    hide WinnerOf, Replay, Game, Four, Filled, Stacked, Sum;
    PieceConservation(h);
    var f := Replay(h).field;
    WinnerSoundComplete(f);
    if WinnerOf(f) != 0 {
      var r, c, dr, dc :| Four(f, r, c, dr, dc, WinnerOf(f));
      LineFillsFour(f, r, c, dr, dc, WinnerOf(f));
    }
  }

  lemma LineFillsFour(f: Field, r: int, c: int, dr: int, dc: int, p: int)
    requires Four(f, r, c, dr, dc, p)
    ensures |Filled(f)| >= 4
  {
    AtLeastFour(Filled(f), (r, c), (r + dr, c + dc), (r + 2 * dr, c + 2 * dc), (r + 3 * dr, c + 3 * dc));
  }

  lemma AtLeastFour<T>(s: set<T>, x: T, y: T, z: T, w: T)
    requires x in s && y in s && z in s && w in s
    requires x != y && x != z && x != w && y != z && y != w && z != w
    ensures |s| >= 4
  {
    var t := {x} + {y} + {z} + {w};
    assert |t| == 4;
    assert s == t + (s - t);
  }

  // The first column has room for two opening moves.
  lemma OpeningRoom(p: Peer)
    requires Local(p) && |p.history| < 3
    ensures CanMove(p.board, 0)
  {
    PieceConservation(p.history);
    SumAtLeast(p.board.nextRow, 0);
  }

  lemma {:induction false} SumAtLeast(h: seq<nat>, c: nat)
    requires c < |h|
    ensures h[c] <= Sum(h)
  {
    if c < |h| - 1 {
      SumAtLeast(h[..|h| - 1], c);
    }
  }

  // An opening move in the first column is possible and does not win.
  lemma OpeningMove(p: Peer, player: int)
    requires Local(p) && p.outcome.Playing? && |p.history| < 3 && player in {PLAYER_1, PLAYER_2}
    ensures CanMove(p.board, 0) && WinnerOf(Drop(p.board, 0, player).field) == 0
    ensures p.nextSequence + p.nextExpected == |p.history|
  {
    hide WinnerOf, Game, Replay, ColumnsOf;
    OpeningRoom(p);
    NoWrap(p);
    Extend(p.history, 0, player);
    FewPiecesNoWinner(p.history + [Move(0, player)]);
  }

  lemma OpeningStdin(p: Peer)
    requires Local(p) && p.outcome.Playing? && p.phase.Turn? && |p.history| < 3
    ensures var r := OnStdin(p, 0);
      && r.sent == [Column(p.nextSequence, 0)]
      && r.peer.outcome.Playing? && |r.peer.history| == |p.history| + 1
      && r.peer.nextExpected == p.nextExpected && r.peer.unacked == p.unacked + [UnAck(p.nextSequence, 0, 2000)]
  {
    hide Local, WinnerOf;
    OpeningMove(p, PLAYER_1);
  }

  lemma OpeningColumn(p: Peer)
    requires Local(p) && p.outcome.Playing? && |p.history| < 3
    ensures var r := OnColumn(p, p.nextExpected, 0);
      && r.sent == [ColumnAck(p.nextExpected)]
      && r.peer.outcome.Playing? && r.peer.phase.Turn? && |r.peer.history| == |p.history| + 1
      && r.peer.nextSequence == p.nextSequence && r.peer.unacked == p.unacked
  {
    hide Local, WinnerOf;
    OpeningMove(p, PLAYER_2);
  }

  // a plays the first column, b accepts it and answers in the same column.
  lemma OpeningExchange() returns (s: System)
    ensures s == Next(Next(Next(Init(true), Stdin(A, 0)), Deliver(B)), Stdin(B, 0)) && Inv(s)
    ensures s.toA == [ColumnAck(0), Column(0, 0)]
    ensures s.a.outcome.Playing? && |s.a.history| == 1 && s.a.nextExpected == 0 && s.a.unacked == [UnAck(0, 0, 2000)]
  {
    hide Inv, Local, Begin, OnStdin, OnColumn;
    InitInv(true);
    BeginFields(true);
    BeginFields(false);
    OpeningPeers();
    var s0 := Init(true);
    OpeningStdin(s0.a);
    var s1 := Next(s0, Stdin(A, 0));
    NextKeeps(s0, Stdin(A, 0));
    OpeningColumn(s1.b);
    var s2 := Next(s1, Deliver(B));
    NextKeeps(s1, Deliver(B));
    InvLocal(s2);
    OpeningStdin(s2.b);
    s := Next(s2, Stdin(B, 0));
    NextKeeps(s2, Stdin(B, 0));
  }

  lemma InvLocal(s: System)
    requires Inv(s)
    ensures Local(s.a) && Local(s.b) && 0 <= Outstanding(s.a, s.b) && 0 <= Outstanding(s.b, s.a) && Token(s) <= 1
  {
    hide Local;
    Outstandings(s.a, s.b);
    Outstandings(s.b, s.a);
  }

  // The turn can be lost: one opening exchange in which the answer overtakes the
  // acknowledgement of the first move leaves both peers waiting with nothing outstanding.
  lemma TurnCanBeLost() returns (steps: seq<Step>)
    ensures Stalled(Run(Init(true), steps))
  {
    hide Inv, Local, Init, OnStdin, OnColumn, OnAck, OnTimeout;
    var s3 := OpeningExchange();
    var s4 := Next(s3, Reorder(A, 0));
    NextKeeps(s3, Reorder(A, 0));
    InvLocal(s4);
    OpeningColumn(s4.a);
    var s5 := Next(s4, Deliver(A));
    NextKeeps(s4, Deliver(A));
    InvLocal(s5);
    HandlersUnmoved(s5.a, 0, 0, 0);
    NextToken(s5, Deliver(A));
    NextKeeps(s5, Deliver(A));
    steps := [Stdin(A, 0), Deliver(B), Stdin(B, 0), Reorder(A, 0), Deliver(A), Deliver(A)];
    RunSix(Init(true), steps);
  }

  lemma RunSix(s: System, t: seq<Step>)
    requires |t| == 6
    ensures Run(s, t) == Next(Next(Next(Next(Next(Next(s, t[0]), t[1]), t[2]), t[3]), t[4]), t[5])
  {
    hide Next;
    assert t[..5][..4] == t[..4] && t[..4][..3] == t[..3] && t[..3][..2] == t[..2]
           && t[..2][..1] == t[..1] && t[..1][..0] == [];
    assert Run(s, t[..1]) == Next(s, t[0]);
    assert Run(s, t[..2]) == Next(Run(s, t[..1]), t[1]);
    assert Run(s, t[..3]) == Next(Run(s, t[..2]), t[2]);
    assert Run(s, t[..4]) == Next(Run(s, t[..3]), t[3]);
    assert Run(s, t[..5]) == Next(Run(s, t[..4]), t[4]);
  }

  lemma OpeningPeers()
    ensures Local(Begin(true)) && Local(Begin(false))
    ensures Begin(true).history == [] && Begin(false).history == []
    ensures Begin(true).unacked == [] && Begin(false).unacked == []
  {
    InitInv(true);
    hide Empty;
  }

  // ---------------------------------------------------------------- when a game can go on

  // p can make a move, or its outstanding move can still reach q.
  predicate MoveDue(p: Peer, q: Peer, toQ: seq<Message>) {
    || (TurnOf(p) == 1 && |p.history| < ROWS * COLS)
    || (Ahead(p, q) && q.outcome.Playing? && (p.outcome.Playing? || Sent(toQ, q.nextExpected)))
  }

  // A column message with this sequence is in flight.
  predicate Sent(channel: seq<Message>, sequence: int) {
    exists i :: 0 <= i < |channel| && channel[i].Column? && channel[i].sequence == sequence
  }

  predicate CanGoOn(s: System) {
    MoveDue(s.a, s.b, s.toB) || MoveDue(s.b, s.a, s.toA)
  }

  // A legal game has room for another move exactly when the board is not full.
  lemma RoomLeft(p: Peer)
    requires Local(p)
    ensures |p.history| < ROWS * COLS <==> exists c :: CanMove(p.board, c)
  {
    hide Game, Replay, WinnerOf, ColumnsOf, Filled;
    PieceConservation(p.history);
    var h := p.board.nextRow;
    SumBound(h, ROWS);
    assert forall c :: CanMove(p.board, c) <==> 0 <= c < |h| && h[c] != ROWS;
  }

  // Nothing arises between p and q that was not due before.
  lemma NothingDue(p: Peer, q: Peer, toQ: seq<Message>, r: Peer, t: Peer, toT: seq<Message>)
    requires r.history == p.history && t.history == q.history && t.nextExpected == q.nextExpected
    requires r.outcome == p.outcome && t.outcome == q.outcome && TurnOf(r) <= TurnOf(p)
    requires !p.outcome.Playing? && Sent(toT, t.nextExpected) ==> Sent(toQ, t.nextExpected)
    ensures MoveDue(r, t, toT) ==> MoveDue(p, q, toQ)
  {
    hide Sent;
  }

  lemma StuckStdin(s: System, move: int)
    requires Inv(s) && !CanGoOn(s) && s.a.outcome.Playing?
    ensures OnStdin(s.a, move) == Reaction(s.a, [])
  {
    hide Local, Queued, Kept, Ahead, Sent;
    RoomLeft(s.a);
  }

  lemma StuckColumn(s: System, m: Message)
    requires Inv(s) && !CanGoOn(s) && s.a.outcome.Playing? && m.Column? && m in s.toA
    ensures OnColumn(s.a, m.sequence, m.column) == Reaction(s.a, [])
  {
    hide Local, Queued, Kept, Ahead;
    assert Honest(s.b, m);
    ExpectedMove(s.a, s.b, m.sequence, m.column);
    var i :| 0 <= i < |s.toA| && s.toA[i] == m;
  }

  lemma ChannelSent(c: seq<Message>, i: nat, n: int)
    requires i < |c|
    ensures Sent(c[1..], n) ==> Sent(c, n)
    ensures Sent(c[..i] + c[i + 1..], n) ==> Sent(c, n)
    ensures Sent(c[..i] + [c[i]] + c[i..], n) ==> Sent(c, n)
    ensures i + 1 < |c| && Sent(c[i := c[i + 1]][i + 1 := c[i]], n) ==> Sent(c, n)
  {
    var lost, twice := c[..i] + c[i + 1..], c[..i] + [c[i]] + c[i..];
    assert forall k :: 0 <= k < |lost| ==> lost[k] == c[if k < i then k else k + 1];
    assert forall k :: 0 <= k < |twice| ==> twice[k] == c[if k <= i then k else k - 1];
    assert forall k :: 0 <= k < |c[1..]| ==> c[1..][k] == c[k + 1];
  }

  // What a step at side A leaves when nothing is due: the histories, and nothing due.
  lemma StepAStuck(s: System, st: Step)
    requires Inv(s) && !CanGoOn(s)
    ensures !CanGoOn(StepA(s, st))
    ensures StepA(s, st).a.history == s.a.history && StepA(s, st).b.history == s.b.history
  {
    hide Inv, MoveDue, Sent, OnStdin, OnColumn, FindUnAck, Ahead;
    var r := StepA(s, st);
    assert s.toB + [] == s.toB;
    match st
    case Stdin(_, move) =>
      if s.a.outcome.Playing? {
        StuckStdin(s, move);
      }
    case Retransmit(_, k) =>
      NothingDue(s.a, s.b, s.toB, r.a, r.b, r.toB);
      NothingDue(s.b, s.a, s.toA, r.b, r.a, r.toA);
    case Deliver(_) =>
      if s.toA != [] {
        ChannelSent(s.toA, 0, s.a.nextExpected);
        if s.a.outcome.Playing? && s.toA[0].Column? {
          StuckColumn(s, s.toA[0]);
        }
        NothingDue(s.a, s.b, s.toB, r.a, r.b, r.toB);
        NothingDue(s.b, s.a, s.toA, r.b, r.a, r.toA);
      }
    case _ =>
      if st.i < |s.toA| {
        ChannelSent(s.toA, st.i, s.a.nextExpected);
      }
      NothingDue(s.b, s.a, s.toA, r.b, r.a, r.toA);
  }

  lemma MirrorGoesOn(s: System)
    ensures CanGoOn(Mirror(s)) <==> CanGoOn(s)
  {
    hide MoveDue;
  }

  // Where nothing is due, no continuation makes or accepts another move.
  lemma {:induction false} StuckForever(s: System, steps: seq<Step>)
    requires Inv(s) && !CanGoOn(s)
    ensures Inv(Run(s, steps)) && !CanGoOn(Run(s, steps))
    ensures Run(s, steps).a.history == s.a.history && Run(s, steps).b.history == s.b.history
  {
    hide Inv, CanGoOn, StepA;
    if steps != [] {
      var prefix, st := steps[..|steps| - 1], steps[|steps| - 1];
      var m := Run(s, prefix);
      StuckForever(s, prefix);
      NextKeeps(m, st);
      MirrorInv(m);
      MirrorGoesOn(m);
      StepAStuck(if st.side.A? then m else Mirror(m), st);
      MirrorGoesOn(StepA(Mirror(m), st));
    }
  }

  lemma {:induction false} RunConcat(s: System, x: seq<Step>, y: seq<Step>)
    ensures Run(s, x + y) == Run(Run(s, x), y)
  {
    hide Next;
    if y == [] {
      assert x + y == x;
    } else {
      assert (x + y)[..|x + y| - 1] == x + y[..|y| - 1];
      RunConcat(s, x, y[..|y| - 1]);
    }
  }

  lemma {:induction false} RunInv(s: System, steps: seq<Step>)
    requires Inv(s)
    ensures Inv(Run(s, steps))
  {
    hide Inv, Next;
    if steps != [] {
      RunInv(s, steps[..|steps| - 1]);
      NextKeeps(Run(s, steps[..|steps| - 1]), steps[|steps| - 1]);
    }
  }

  // The outstanding move arrives and is accepted.
  lemma Accepts(s: System)
    requires Inv(s) && Ahead(s.b, s.a) && s.a.outcome.Playing?
    requires s.toA != [] && s.toA[0].Column? && s.toA[0].sequence == s.a.nextExpected
    ensures var r := Next(s, Deliver(A));
      && r.a.history == s.a.history + [Move(Last(s.b.history).column, PLAYER_2)]
      && r.b == s.b && Even(r.a, r.b)
  {
    hide Local, WinnerOf, ColumnsOf, OnColumn;
    assert Honest(s.b, s.toA[0]);
    ExpectedMove(s.a, s.b, s.toA[0].sequence, s.toA[0].column);
    AcceptIsLocal(s.a, s.toA[0].column);
    AcceptEvens(s.a, s.b, OnColumn(s.a, s.toA[0].sequence, s.toA[0].column).peer);
  }
}

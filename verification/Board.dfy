// The Connect Four board of client/lib/4clib.c: gravity, legal games and the
// search for four in a row, first on values and then on the arrays in place.

module Board {
  const ROWS := 6
  const COLS := 7
  const PLAYER_1 := -1
  const PLAYER_2 := 1

  type Field = f: seq<seq<int>> | |f| == ROWS && forall r :: 0 <= r < ROWS ==> |f[r]| == COLS
    witness seq(ROWS, _ => seq(COLS, _ => 0))

  type Heights = h: seq<nat> | |h| == COLS witness seq(COLS, _ => 0)

  datatype Position = Position(field: Field, nextRow: Heights)

  function Empty(): Position {
    Position(seq(ROWS, _ => seq(COLS, _ => 0)), seq(COLS, _ => 0))
  }

  predicate OnBoard(r: int, c: int) {
    0 <= r < ROWS && 0 <= c < COLS
  }

  predicate CanMove(b: Position, c: int) {
    0 <= c < COLS && b.nextRow[c] < ROWS
  }

  function SetCell(f: Field, r: int, c: int, player: int): Field
    requires OnBoard(r, c)
  {
    f[r := f[r][c := player]]
  }

  function Drop(b: Position, c: int, player: int): Position
    requires CanMove(b, c)
  {
    Position(SetCell(b.field, b.nextRow[c], c, player), b.nextRow[c := b.nextRow[c] + 1])
  }

  // ---------------------------------------------------------------- games

  datatype Move = Move(column: int, player: int)

  type History = seq<Move>

  function Before(h: History): History
    requires h != []
  {
    h[..|h| - 1]
  }

  function Last(h: History): Move
    requires h != []
  {
    h[|h| - 1]
  }

  // The board after a sequence of moves.
  function Replay(h: History): Position {
    if h == [] then Empty()
    else
      var b := Replay(Before(h));
      if CanMove(b, Last(h).column) then Drop(b, Last(h).column, Last(h).player) else b
  }

  // Every move is valid when it is made, and play stops at the first nonzero winner.
  predicate Game(h: History) {
    h != [] ==>
      && Game(Before(h))
      && CanMove(Replay(Before(h)), Last(h).column)
      && Last(h).player in {PLAYER_1, PLAYER_2}
      && WinnerOf(Replay(Before(h)).field) == 0
  }

  // The same game as the other peer records it.
  function Flip(h: History): (g: History)
    ensures |g| == |h|
    ensures forall i :: 0 <= i < |h| ==> g[i] == Move(h[i].column, -h[i].player)
  {
    seq(|h|, i requires 0 <= i < |h| => Move(h[i].column, -h[i].player))
  }

  function NegateField(f: Field): (g: Field)
    ensures forall r, c :: OnBoard(r, c) ==> g[r][c] == -f[r][c]
  {
    seq(ROWS, r requires 0 <= r < ROWS => seq(COLS, c requires 0 <= c < COLS => -f[r][c]))
  }

  function Negate(b: Position): Position {
    Position(NegateField(b.field), b.nextRow)
  }

  // The columns one player chose, in order.
  function ColumnsOf(h: History, player: int): (cs: seq<int>)
    ensures |cs| <= |h|
  {
    if h == [] then []
    else
      var rest := ColumnsOf(Before(h), player);
      if Last(h).player == player then rest + [Last(h).column] else rest
  }

  // ---------------------------------------------------------------- gravity

  // A cell is filled exactly when it lies below the next free row of its column.
  ghost predicate Stacked(b: Position) {
    && (forall c :: 0 <= c < COLS ==> b.nextRow[c] <= ROWS)
    && (forall r, c :: OnBoard(r, c) ==> (b.field[r][c] != 0 <==> r < b.nextRow[c]))
  }

  function Filled(f: Field): set<(int, int)> {
    set r, c | 0 <= r < ROWS && 0 <= c < COLS && f[r][c] != 0 :: (r, c)
  }

  function Sum(h: seq<nat>): nat {
    if h == [] then 0 else Sum(h[..|h| - 1]) + h[|h| - 1]
  }

  lemma {:induction false} SumUpdate(h: seq<nat>, c: nat)
    requires c < |h|
    ensures Sum(h[c := h[c] + 1]) == Sum(h) + 1
  {
    var g := h[c := h[c] + 1];
    if c == |h| - 1 {
      assert g[..|h| - 1] == h[..|h| - 1];
    } else {
      assert g[..|h| - 1] == h[..|h| - 1][c := h[c] + 1];
      SumUpdate(h[..|h| - 1], c);
    }
  }

  lemma {:induction false} SumBound(h: seq<nat>, m: nat)
    requires forall c :: 0 <= c < |h| ==> h[c] <= m
    ensures Sum(h) <= |h| * m
    ensures Sum(h) == |h| * m <==> forall c :: 0 <= c < |h| ==> h[c] == m
  {
    if h != [] {
      SumBound(h[..|h| - 1], m);
      assert |h| * m == (|h| - 1) * m + m;
    }
  }

  lemma SumZero(h: seq<nat>)
    requires forall c :: 0 <= c < |h| ==> h[c] == 0
    ensures Sum(h) == 0
  {
  }

  lemma {:induction false} DropFills(b: Position, c: int, player: int)
    requires CanMove(b, c) && Stacked(b) && player != 0
    ensures Stacked(Drop(b, c, player))
    ensures Filled(Drop(b, c, player).field) == Filled(b.field) + {(b.nextRow[c], c)}
    ensures (b.nextRow[c], c) !in Filled(b.field)
  {
    var f, g := b.field, Drop(b, c, player).field;
    var r := b.nextRow[c];
    assert forall i, j :: OnBoard(i, j) && (i, j) != (r, c) ==> g[i][j] == f[i][j];
  }

  lemma {:induction false} PiecesOnBoard(h: History)
    requires Game(h)
    ensures Stacked(Replay(h))
    ensures |Filled(Replay(h).field)| == |h|
  {
    hide WinnerOf;
    if h == [] {
      assert Filled(Empty().field) == {};
    } else {
      PiecesOnBoard(Before(h));
      DropFills(Replay(Before(h)), Last(h).column, Last(h).player);
    }
  }

  lemma {:induction false} PiecesInHeights(h: History)
    requires Game(h)
    ensures Sum(Replay(h).nextRow) == |h|
  {
    hide WinnerOf;
    if h == [] {
      SumZero(Empty().nextRow);
    } else {
      PiecesInHeights(Before(h));
      SumUpdate(Replay(Before(h)).nextRow, Last(h).column);
    }
  }

  lemma {:induction false} PiecesByPlayer(h: History)
    requires Game(h)
    ensures |ColumnsOf(h, PLAYER_1)| + |ColumnsOf(h, PLAYER_2)| == |h|
  {
    hide WinnerOf, Replay;
    if h != [] {
      PiecesByPlayer(Before(h));
    }
  }

  // Piece conservation: one piece a move, on the board and in the column heights,
  // and never more moves than cells.
  lemma PieceConservation(h: History)
    requires Game(h)
    ensures Stacked(Replay(h))
    ensures |Filled(Replay(h).field)| == |h| == Sum(Replay(h).nextRow)
    ensures |ColumnsOf(h, PLAYER_1)| + |ColumnsOf(h, PLAYER_2)| == |h| <= ROWS * COLS
  {
    hide WinnerOf, Replay;
    PiecesOnBoard(h);
    PiecesInHeights(h);
    PiecesByPlayer(h);
    SumBound(Replay(h).nextRow, ROWS);
  }

  // ---------------------------------------------------------------- winner

  // The four loops of winner() in source order, by their direction of travel.
  datatype Direction = Horizontal | Rising | Vertical | Falling {
    function DR(): int { if Horizontal? then 0 else 1 }
    function DC(): int { if Vertical? then 0 else if Falling? then -1 else 1 }
    function RowEnd(): int { if Horizontal? then ROWS else ROWS - 3 }
    function ColStart(): int { if Falling? then 3 else 0 }
    function ColEnd(): int { if Horizontal? || Rising? then COLS - 3 else COLS }
  }

  // Four cells of player p in a straight line, in any of the eight directions.
  predicate Four(f: Field, r: int, c: int, dr: int, dc: int, p: int) {
    && p != 0
    && -1 <= dr <= 1 && -1 <= dc <= 1 && (dr != 0 || dc != 0)
    && OnBoard(r, c) && OnBoard(r + 3 * dr, c + 3 * dc)
    && f[r][c] == p && f[r + dr][c + dc] == p
    && f[r + 2 * dr][c + 2 * dc] == p && f[r + 3 * dr][c + 3 * dc] == p
  }

  ghost predicate HasFour(f: Field, p: int) {
    exists r, c, dr, dc :: Four(f, r, c, dr, dc, p)
  }

  // The condition tested in the loop body.
  predicate Hit(f: Field, d: Direction, i: int, j: int)
    requires 0 <= i < d.RowEnd() && d.ColStart() <= j < d.ColEnd()
  {
    && f[i][j] != 0
    && f[i][j] == f[i + d.DR()][j + d.DC()]
    && f[i][j] == f[i + 2 * d.DR()][j + 2 * d.DC()]
    && f[i][j] == f[i + 3 * d.DR()][j + 3 * d.DC()]
  }

  ghost predicate NoHitFrom(f: Field, d: Direction, i: int, j: int) {
    forall r, c :: 0 <= i <= r < d.RowEnd() && d.ColStart() <= c < d.ColEnd() && (r == i ==> j <= c)
      ==> !Hit(f, d, r, c)
  }

  ghost predicate HitOf(f: Field, d: Direction, p: int) {
    exists r, c :: 0 <= r < d.RowEnd() && d.ColStart() <= c < d.ColEnd() && Hit(f, d, r, c) && f[r][c] == p
  }

  // The colour of the first hit of the scan from (i, j), or 0.
  function Scan(f: Field, d: Direction, i: int, j: int): (w: int)
    requires 0 <= i <= d.RowEnd() && d.ColStart() <= j <= d.ColEnd()
    ensures w == 0 <==> NoHitFrom(f, d, i, j)
    ensures w != 0 ==> HitOf(f, d, w)
    decreases d.RowEnd() - i, d.ColEnd() - j
  {
    if i == d.RowEnd() then 0
    else if j == d.ColEnd() then Scan(f, d, i + 1, d.ColStart())
    else if Hit(f, d, i, j) then f[i][j]
    else Scan(f, d, i, j + 1)
  }

  function ScanAll(f: Field, d: Direction): int {
    Scan(f, d, 0, d.ColStart())
  }

  function WinnerOf(f: Field): int {
    var w0 := ScanAll(f, Horizontal);
    if w0 != 0 then w0 else
    var w1 := ScanAll(f, Rising);
    if w1 != 0 then w1 else
    var w2 := ScanAll(f, Vertical);
    if w2 != 0 then w2 else ScanAll(f, Falling)
  }

  lemma ScanSound(f: Field, d: Direction)
    requires ScanAll(f, d) != 0
    ensures HasFour(f, ScanAll(f, d))
  {
    var r, c :| 0 <= r < d.RowEnd() && d.ColStart() <= c < d.ColEnd() && Hit(f, d, r, c) && f[r][c] == ScanAll(f, d);
    assert Four(f, r, c, d.DR(), d.DC(), f[r][c]);
  }

  // Every line, in whichever of the eight directions it is read, is hit by one of the four scans.
  lemma ScanComplete(f: Field, r: int, c: int, dr: int, dc: int, p: int)
    requires Four(f, r, c, dr, dc, p)
    ensures WinnerOf(f) != 0
  {
    if dr < 0 || (dr == 0 && dc < 0) {
      assert Four(f, r + 3 * dr, c + 3 * dc, -dr, -dc, p);
      ScanCompleteForward(f, r + 3 * dr, c + 3 * dc, -dr, -dc, p);
    } else {
      ScanCompleteForward(f, r, c, dr, dc, p);
    }
  }

  lemma ScanCompleteForward(f: Field, r: int, c: int, dr: int, dc: int, p: int)
    requires Four(f, r, c, dr, dc, p)
    requires dr == 1 || (dr == 0 && dc == 1)
    ensures WinnerOf(f) != 0
  {
    var d := if dr == 0 then Horizontal else if dc == 1 then Rising else if dc == 0 then Vertical else Falling;
    assert d.DR() == dr && d.DC() == dc;
    assert Hit(f, d, r, c);
    assert ScanAll(f, d) != 0;
  }

  // winner() returns p only for a line of p, and 0 only when there is no line at all.
  lemma WinnerSoundComplete(f: Field)
    ensures WinnerOf(f) == 0 <==> forall p :: !HasFour(f, p)
    ensures WinnerOf(f) != 0 ==> HasFour(f, WinnerOf(f))
  {
    if WinnerOf(f) != 0 {
      var d := if ScanAll(f, Horizontal) != 0 then Horizontal
               else if ScanAll(f, Rising) != 0 then Rising
               else if ScanAll(f, Vertical) != 0 then Vertical else Falling;
      ScanSound(f, d);
    } else {
      forall p ensures !HasFour(f, p) {
        if HasFour(f, p) {
          var r, c, dr, dc :| Four(f, r, c, dr, dc, p);
          ScanComplete(f, r, c, dr, dc, p);
        }
      }
    }
  }

  lemma NegateHit(f: Field, d: Direction, i: int, j: int)
    requires 0 <= i < d.RowEnd() && d.ColStart() <= j < d.ColEnd()
    ensures Hit(NegateField(f), d, i, j) == Hit(f, d, i, j)
  {
  }

  lemma {:induction false} NegateScan(f: Field, d: Direction, i: int, j: int)
    requires 0 <= i <= d.RowEnd() && d.ColStart() <= j <= d.ColEnd()
    ensures Scan(NegateField(f), d, i, j) == -Scan(f, d, i, j)
    decreases d.RowEnd() - i, d.ColEnd() - j
  {
    hide Hit, NoHitFrom, HitOf;
    if i < d.RowEnd() {
      if j == d.ColEnd() {
        NegateScan(f, d, i + 1, d.ColStart());
      } else {
        NegateHit(f, d, i, j);
        if !Hit(f, d, i, j) {
          NegateScan(f, d, i, j + 1);
        }
      }
    }
  }

  // Negating every cell negates the verdict, for every board whatever.
  lemma NegateWinner(f: Field)
    ensures WinnerOf(NegateField(f)) == -WinnerOf(f)
  {
    NegateScan(f, Horizontal, 0, 0);
    NegateScan(f, Rising, 0, 0);
    NegateScan(f, Vertical, 0, 0);
    NegateScan(f, Falling, 0, 3);
  }

  // A line that was not there before the move has the mover's colour.
  lemma NewLineIsMovers(b: Position, c: int, player: int, p: int)
    requires CanMove(b, c) && WinnerOf(b.field) == 0
    requires HasFour(Drop(b, c, player).field, p)
    ensures p == player
  {
    WinnerSoundComplete(b.field);
    hide WinnerOf, Four;
    var r, k, dr, dc :| Four(Drop(b, c, player).field, r, k, dr, dc, p);
    if p != player {
      OtherLineWasThere(b, c, player, r, k, dr, dc, p);
    }
  }

  lemma OtherLineWasThere(b: Position, c: int, player: int, r: int, k: int, dr: int, dc: int, p: int)
    requires CanMove(b, c) && p != player
    requires Four(Drop(b, c, player).field, r, k, dr, dc, p)
    ensures HasFour(b.field, p)
  {
    var f, g := b.field, Drop(b, c, player).field;
    assert forall i, j :: OnBoard(i, j) && (i, j) != (b.nextRow[c], c) ==> g[i][j] == f[i][j];
    assert Four(f, r, k, dr, dc, p);
  }

  // Unambiguous winner: at the end of any legal game every four in a row is the
  // last mover's, so the order of the scan cannot matter.
  lemma UnambiguousWinner(h: History)
    requires Game(h) && h != []
    ensures forall p :: HasFour(Replay(h).field, p) ==> p == Last(h).player
    ensures WinnerOf(Replay(h).field) in {0, Last(h).player}
  {
    var b := Replay(Before(h));
    forall p | HasFour(Replay(h).field, p) ensures p == Last(h).player {
      NewLineIsMovers(b, Last(h).column, Last(h).player, p);
    }
    WinnerSoundComplete(Replay(h).field);
  }

  lemma NegateDrop(b: Position, c: int, player: int)
    requires CanMove(b, c)
    ensures CanMove(Negate(b), c)
    ensures Negate(Drop(b, c, player)) == Drop(Negate(b), c, -player)
  {
    var f, g := Negate(Drop(b, c, player)).field, Drop(Negate(b), c, -player).field;
    forall r | 0 <= r < ROWS ensures f[r] == g[r] {
      assert forall k :: 0 <= k < COLS ==> f[r][k] == g[r][k];
    }
  }

  // Two peers that recorded the same moves hold boards that negate each other.
  lemma {:induction false} FlipNegates(h: History)
    ensures Replay(Flip(h)) == Negate(Replay(h))
  {
    if h == [] {
      assert forall r :: 0 <= r < ROWS ==> NegateField(Empty().field)[r] == Empty().field[r];
      assert Flip(h) == [];
    } else {
      FlipNegates(Before(h));
      assert Before(Flip(h)) == Flip(Before(h));
      var b := Replay(Before(h));
      if CanMove(b, Last(h).column) {
        NegateDrop(b, Last(h).column, Last(h).player);
      }
    }
  }

  lemma {:induction false} FlipColumns(h: History, player: int)
    ensures ColumnsOf(Flip(h), player) == ColumnsOf(h, -player)
  {
    if h != [] {
      assert Before(Flip(h)) == Flip(Before(h));
      FlipColumns(Before(h), player);
    }
  }

  lemma FlipFlip(h: History)
    ensures Flip(Flip(h)) == h
  {
  }

  lemma EmptyHasNoWinner()
    ensures WinnerOf(Empty().field) == 0
  {
    WinnerSoundComplete(Empty().field);
  }

  // A history grown by one move.
  lemma Extend(h: History, c: int, player: int)
    ensures var g := h + [Move(c, player)];
      && Before(g) == h && Last(g) == Move(c, player)
      && (Game(g) <==>
            Game(h) && CanMove(Replay(h), c) && player in {PLAYER_1, PLAYER_2} && WinnerOf(Replay(h).field) == 0)
      && (CanMove(Replay(h), c) ==> Replay(g) == Drop(Replay(h), c, player))
      && (forall q :: ColumnsOf(g, q) == if q == player then ColumnsOf(h, q) + [c] else ColumnsOf(h, q))
      && Flip(g) == Flip(h) + [Move(c, -player)]
  {
    assert Before(h + [Move(c, player)]) == h;
  }

  // ---------------------------------------------------------------- the static arrays

  class Grid {
    const field: array2<int>
    const nextRow: array<nat>
    ghost var view: Position

    ghost predicate Valid()
      reads this, field, nextRow
    {
      && field.Length0 == ROWS && field.Length1 == COLS && nextRow.Length == COLS
      && view.nextRow == nextRow[..]
      && (forall r, c :: OnBoard(r, c) ==> view.field[r][c] == field[r, c])
    }

    constructor ()
      ensures Valid() && fresh(field) && fresh(nextRow)
      ensures view == Empty()
    {
      field := new int[ROWS, COLS];
      nextRow := new nat[COLS];
      new;
      Init();
    }

    // init_4clib
    method Init()
      requires field.Length0 == ROWS && field.Length1 == COLS && nextRow.Length == COLS
      modifies this, field, nextRow
      ensures Valid() && view == Empty()
    {
      for i := 0 to ROWS
        invariant forall r, c :: 0 <= r < i && 0 <= c < COLS ==> field[r, c] == 0
      {
        for j := 0 to COLS
          invariant forall r, c :: 0 <= r < i && 0 <= c < COLS ==> field[r, c] == 0
          invariant forall c :: 0 <= c < j ==> field[i, c] == 0
        {
          field[i, j] := 0;
        }
      }
      for j := 0 to COLS
        invariant forall c :: 0 <= c < j ==> nextRow[c] == 0
        invariant forall r, c :: OnBoard(r, c) ==> field[r, c] == 0
      {
        nextRow[j] := 0;
      }
      view := Empty();
    }

    method ValidMove(c: int) returns (ok: bool)
      requires Valid()
      ensures ok == CanMove(view, c)
    {
      ok := 0 <= c < COLS && nextRow[c] < ROWS;
    }

    method MakeMove(c: int, player: int)
      requires Valid() && CanMove(view, c)
      modifies this, field, nextRow
      ensures Valid() && view == Drop(old(view), c, player)
    {
      field[nextRow[c], c] := player;
      nextRow[c] := nextRow[c] + 1;
      view := Drop(view, c, player);
    }

    // The loop body: the colour of four in a row from this cell, or 0.
    method FourFrom(d: Direction, i: nat, j: nat) returns (w: int)
      requires Valid() && i < d.RowEnd() && d.ColStart() <= j < d.ColEnd()
      ensures w != 0 <==> Hit(view.field, d, i, j)
      ensures w != 0 ==> w == view.field[i][j]
    {
      var i1, j1 := i + d.DR(), j + d.DC();
      var i2, j2 := i1 + d.DR(), j1 + d.DC();
      var i3, j3 := i2 + d.DR(), j2 + d.DC();
      assert OnBoard(i, j) && OnBoard(i1, j1) && OnBoard(i2, j2) && OnBoard(i3, j3);
      if field[i, j] != 0 && field[i, j] == field[i1, j1]
         && field[i, j] == field[i2, j2] && field[i, j] == field[i3, j3]
      {
        return field[i, j];
      }
      return 0;
    }

    // One of the four loop nests of winner().
    method ScanDirection(d: Direction) returns (w: int)
      requires Valid()
      ensures w == ScanAll(view.field, d)
    {
      hide Valid, Hit;
      ghost var f := view.field;
      for i := 0 to d.RowEnd()
        invariant ScanAll(f, d) == Scan(f, d, i, d.ColStart())
      {
        for j := d.ColStart() to d.ColEnd()
          invariant ScanAll(f, d) == Scan(f, d, i, j)
        {
          w := FourFrom(d, i, j);
          if w != 0 {
            return;
          }
        }
      }
      return 0;
    }

    method Winner() returns (w: int)
      requires Valid()
      ensures w == WinnerOf(view.field)
    {
      w := ScanDirection(Horizontal);
      if w == 0 {
        w := ScanDirection(Rising);
      }
      if w == 0 {
        w := ScanDirection(Vertical);
      }
      if w == 0 {
        w := ScanDirection(Falling);
      }
    }
  }
}

/** The game engine: the 3x3 board, the eight fixed winning lines, win and
    draw detection, and the enumeration of empty cells. Everything here is a
    pure function of a board value. */
module Engine {

  datatype Option<T> = None | Some(value: T)

  /** The two symbols a player can put on the board. */
  datatype Player = X | O

  /** A cell is empty or carries a player's mark. */
  datatype Cell = Empty | Mark(player: Player)

  /** A cell position, row-major: index = row * 3 + col. */
  type Index = i: int | 0 <= i < 9

  /** A board always has exactly nine cells. */
  type Board = s: seq<Cell> | |s| == 9
    witness [Empty, Empty, Empty, Empty, Empty, Empty, Empty, Empty, Empty]

  /** A row, a column or a diagonal, as three cell positions. */
  datatype Line = Line(a: Index, b: Index, c: Index)

  /** The fixed enumeration of lines: three rows, three columns, two diagonals.
      Its order decides which line is reported when several are complete. */
  const LINES: seq<Line> := [
    Line(0, 1, 2),
    Line(3, 4, 5),
    Line(6, 7, 8),
    Line(0, 3, 6),
    Line(1, 4, 7),
    Line(2, 5, 8),
    Line(0, 4, 8),
    Line(2, 4, 6)
  ]

  /** The winning symbol and the line it completes. */
  datatype WinnerInfo = WinnerInfo(player: Player, line: Line)

  function EmptyBoard(): (b: Board)
    ensures forall i: Index :: b[i] == Empty
  {
    [Empty, Empty, Empty, Empty, Empty, Empty, Empty, Empty, Empty]
  }

  /** Line `l` carries three equal, non-empty cells on board `b`. */
  predicate Completes(b: Board, l: Line)
  {
    b[l.a].Mark? && b[l.a] == b[l.b] && b[l.a] == b[l.c]
  }

  /** `LINES[j]` is the first complete line at or after position `k`. */
  ghost predicate FirstCompleteFrom(b: Board, k: nat, j: int)
  {
    k <= j < |LINES| && Completes(b, LINES[j]) &&
    forall m :: k <= m < j ==> !Completes(b, LINES[m])
  }

  /** The scan of `LINES` from position `k` on, stopping at the first
      complete line. */
  function WinnerFrom(b: Board, k: nat): (r: Option<WinnerInfo>)
    requires k <= |LINES|
    decreases |LINES| - k
    ensures r.None? <==> forall j :: k <= j < |LINES| ==> !Completes(b, LINES[j])
    ensures r.Some? ==>
      exists j :: FirstCompleteFrom(b, k, j) &&
        r.value == WinnerInfo(b[LINES[j].a].player, LINES[j])
  {
    if k == |LINES| then None
    else if Completes(b, LINES[k]) then
      assert FirstCompleteFrom(b, k, k);
      Some(WinnerInfo(b[LINES[k].a].player, LINES[k]))
    else
      assert forall j :: FirstCompleteFrom(b, k + 1, j) ==> FirstCompleteFrom(b, k, j);
      WinnerFrom(b, k + 1)
  }

  /** The winner of the board, if any: the first line in `LINES` order whose
      three cells are equal and non-empty, paired with the symbol in them. */
  function CalculateWinner(b: Board): (r: Option<WinnerInfo>)
    ensures r.None? <==> forall l :: l in LINES ==> !Completes(b, l)
    ensures r.Some? ==>
      r.value.line in LINES && Completes(b, r.value.line) &&
      b[r.value.line.a] == b[r.value.line.b] == b[r.value.line.c] == Mark(r.value.player)
  {
    var r := WinnerFrom(b, 0);
    assert r.None? <==> forall j :: 0 <= j < |LINES| ==> !Completes(b, LINES[j]);
    r
  }

  /** The reported line is the first complete one in `LINES` order. */
  lemma WinnerIsFirstCompleteLine(b: Board)
    requires CalculateWinner(b).Some?
    ensures exists j :: FirstCompleteFrom(b, 0, j) && CalculateWinner(b).value.line == LINES[j]
  {
    assert CalculateWinner(b) == WinnerFrom(b, 0);
  }

  /** The empty positions at index `k` and above, in ascending order. */
  function EmptyFrom(b: Board, k: nat): (r: seq<Index>)
    requires k <= 9
    decreases 9 - k
    ensures forall m :: 0 <= m < |r| ==> k <= r[m] && b[r[m]] == Empty
    ensures forall i: Index :: k <= i && b[i] == Empty ==> i in r
    ensures forall m, n :: 0 <= m < n < |r| ==> r[m] < r[n]
  {
    if k == 9 then []
    else if b[k] == Empty then [k as Index] + EmptyFrom(b, k + 1)
    else EmptyFrom(b, k + 1)
  }

  /** Exactly the empty positions of the board, strictly ascending. */
  function EmptyIndices(b: Board): (r: seq<Index>)
    ensures forall m :: 0 <= m < |r| ==> b[r[m]] == Empty
    ensures forall i: Index :: b[i] == Empty <==> i in r
    ensures forall m, n :: 0 <= m < n < |r| ==> r[m] < r[n]
    ensures |r| == 0 <==> IsFull(b)
  {
    EmptyFrom(b, 0)
  }

  /** Every cell is occupied. */
  predicate IsFull(b: Board)
  {
    forall i: Index :: b[i] != Empty
  }

  /** A draw: no winner and no empty cell left. */
  predicate IsDraw(b: Board)
  {
    CalculateWinner(b).None? && IsFull(b)
  }

  /** A draw is exactly a board without a winner on which the enumeration of
      empty cells comes back empty; a board with an empty cell or a winner is
      never a draw. */
  lemma DrawMeansNoMoveLeft(b: Board)
    ensures IsDraw(b) <==> CalculateWinner(b).None? && EmptyIndices(b) == []
    ensures EmptyIndices(b) != [] ==> !IsDraw(b)
    ensures CalculateWinner(b).Some? ==> !IsDraw(b)
  {
  }

  /** A completed line involves only occupied cells. */
  lemma CompleteLineAvoidsEmpty(b: Board, l: Line, i: Index)
    requires Completes(b, l) && b[i] == Empty
    ensures i != l.a && i != l.b && i != l.c
  {
  }

  /** The empty board has no winner and is not a draw. */
  lemma EmptyBoardUndecided()
    ensures CalculateWinner(EmptyBoard()).None?
    ensures !IsDraw(EmptyBoard())
  {
    var b := EmptyBoard();
    forall l | l in LINES ensures !Completes(b, l) {
    }
  }

  /** The number of cells holding `p`'s mark. */
  function Count(b: seq<Cell>, p: Player): (n: nat)
    ensures n <= |b|
  {
    if b == [] then 0 else (if b[0] == Mark(p) then 1 else 0) + Count(b[1..], p)
  }

  /** Writing `q` into an empty cell adds one mark of `q` and none of the
      other symbol. */
  lemma {:induction false} CountPlace(b: seq<Cell>, i: int, q: Player, p: Player)
    requires 0 <= i < |b| && b[i] == Empty
    ensures Count(b[i := Mark(q)], p) == Count(b, p) + (if p == q then 1 else 0)
  {
    if i > 0 {
      CountPlace(b[1..], i - 1, q, p);
      assert b[i := Mark(q)][1..] == b[1..][i - 1 := Mark(q)];
    } else {
      assert b[i := Mark(q)][1..] == b[1..];
    }
  }

  lemma {:induction false} CountEmpty(b: seq<Cell>, p: Player)
    requires forall j :: 0 <= j < |b| ==> b[j] == Empty
    ensures Count(b, p) == 0
  {
    if b != [] {
      CountEmpty(b[1..], p);
    }
  }

  /** The three cells of a line are distinct. */
  lemma LineCellsDistinct(l: Line)
    requires l in LINES
    ensures l.a != l.b && l.a != l.c && l.b != l.c
  {
  }

  /** A complete line puts at least three marks of its symbol on the board. */
  lemma CompleteLineHasThreeMarks(b: Board, l: Line)
    requires l in LINES && Completes(b, l)
    ensures Count(b, b[l.a].player) >= 3
    ensures Count(b, X) >= 3 || Count(b, O) >= 3
  {
    var p := b[l.a].player;
    LineCellsDistinct(l);
    var b1 := b[l.a := Empty];
    var b2 := b1[l.b := Empty];
    var b3 := b2[l.c := Empty];
    CountPlace(b3, l.c, p, p);
    assert b3[l.c := Mark(p)] == b2;
    CountPlace(b2, l.b, p, p);
    assert b2[l.b := Mark(p)] == b1;
    CountPlace(b1, l.a, p, p);
    assert b1[l.a := Mark(p)] == b;
  }

  /** A board on which neither symbol has three marks has no winner. */
  lemma FewMarksNoWinner(b: Board)
    requires Count(b, X) < 3 && Count(b, O) < 3
    ensures CalculateWinner(b).None?
  {
    forall l | l in LINES ensures !Completes(b, l) {
      if Completes(b, l) {
        CompleteLineHasThreeMarks(b, l);
      }
    }
  }
}

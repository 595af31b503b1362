/** The tic-tac-toe board of the match engine: nine cells, each empty or
    owned by one of the two marks, with the win and full-board queries. */
module Board {

  /** The two participants, identified by the mark they play. */
  datatype Mark = X | O

  /** Each player's opponent: the two handlers are wired to each other. */
  function Opponent(m: Mark): (r: Mark)
    ensures r != m
  {
    if m == X then O else X
  }

  /** There are exactly two marks, and each is the other's opponent. */
  lemma MarkCases(m: Mark, n: Mark)
    ensures Opponent(Opponent(m)) == m
    ensures n == m || n == Opponent(m)
  {
  }

  /** The character a player is greeted with. */
  function MarkChar(m: Mark): (c: char)
  {
    if m == X then 'X' else 'O'
  }

  /** One board slot: empty, or owned by the player who claimed it. */
  datatype Cell = Empty | Taken(owner: Mark)

  /** A board location, 0..8 in row-major order. */
  type Idx = i: int | 0 <= i < 9

  /** A board is always exactly nine cells long. */
  type Grid = g: seq<Cell> | |g| == 9
    witness [Empty, Empty, Empty, Empty, Empty, Empty, Empty, Empty, Empty]

  /** The board a new game starts with: every slot unowned. */
  const EmptyGrid: Grid := [Empty, Empty, Empty, Empty, Empty, Empty, Empty, Empty, Empty]

  /** A triple of locations that wins when one player owns all three. */
  datatype Line = Line(a: Idx, b: Idx, c: Idx)

  /** The eight winning lines: three rows, three columns, two diagonals. */
  const Lines: seq<Line> := [
    Line(0, 1, 2), Line(3, 4, 5), Line(6, 7, 8),
    Line(0, 3, 6), Line(1, 4, 7), Line(2, 5, 8),
    Line(0, 4, 8), Line(2, 4, 6)
  ]

  /** Player `m` owns all three cells of line `l`. */
  predicate Owns(g: Grid, l: Line, m: Mark)
  {
    g[l.a] == Taken(m) && g[l.b] == Taken(m) && g[l.c] == Taken(m)
  }

  /** Player `m` has completed some row, column or diagonal. */
  predicate HasLine(g: Grid, m: Mark)
  {
    exists k :: 0 <= k < |Lines| && Owns(g, Lines[k], m)
  }

  /** The server's winner test, written as it is: some triple whose first
      cell is owned and whose three cells have the same owner. It says only
      that somebody won, not who. */
  predicate GameWinner(g: Grid)
  {
    (g[0] != Empty && g[0] == g[1] && g[0] == g[2])
    || (g[3] != Empty && g[3] == g[4] && g[3] == g[5])
    || (g[6] != Empty && g[6] == g[7] && g[6] == g[8])
    || (g[0] != Empty && g[0] == g[3] && g[0] == g[6])
    || (g[1] != Empty && g[1] == g[4] && g[1] == g[7])
    || (g[2] != Empty && g[2] == g[5] && g[2] == g[8])
    || (g[0] != Empty && g[0] == g[4] && g[0] == g[8])
    || (g[2] != Empty && g[2] == g[4] && g[2] == g[6])
  }

  lemma OwnedTriple(g: Grid, k: nat, m: Mark)
    requires k < |Lines| && Owns(g, Lines[k], m)
    ensures HasLine(g, m)
  {
  }

  /** The hand-written winner test agrees with the line table: it holds
      exactly when one of the two players owns a whole line. */
  lemma GameWinnerIffSomeLine(g: Grid)
    ensures GameWinner(g) <==> HasLine(g, X) || HasLine(g, O)
  {
    if GameWinner(g) {
      var m: Mark;
      var k: nat;
      if g[0] != Empty && g[0] == g[1] && g[0] == g[2] {
        m, k := g[0].owner, 0;
      } else if g[3] != Empty && g[3] == g[4] && g[3] == g[5] {
        m, k := g[3].owner, 1;
      } else if g[6] != Empty && g[6] == g[7] && g[6] == g[8] {
        m, k := g[6].owner, 2;
      } else if g[0] != Empty && g[0] == g[3] && g[0] == g[6] {
        m, k := g[0].owner, 3;
      } else if g[1] != Empty && g[1] == g[4] && g[1] == g[7] {
        m, k := g[1].owner, 4;
      } else if g[2] != Empty && g[2] == g[5] && g[2] == g[8] {
        m, k := g[2].owner, 5;
      } else if g[0] != Empty && g[0] == g[4] && g[0] == g[8] {
        m, k := g[0].owner, 6;
      } else {
        m, k := g[2].owner, 7;
      }
      OwnedTriple(g, k, m);
      MarkCases(X, m);
    }
    if HasLine(g, X) {
      LineIsWin(g, X);
    }
    if HasLine(g, O) {
      LineIsWin(g, O);
    }
  }

  /** A completed line passes the hand-written winner test. */
  lemma LineIsWin(g: Grid, m: Mark)
    requires HasLine(g, m)
    ensures GameWinner(g)
  {
    var k :| 0 <= k < |Lines| && Owns(g, Lines[k], m);
    if k == 0 {} else if k == 1 {} else if k == 2 {} else if k == 3 {}
    else if k == 4 {} else if k == 5 {} else if k == 6 {} else {}
  }

  /** Every slot is owned. */
  predicate Full(g: seq<Cell>)
  {
    forall i :: 0 <= i < |g| ==> g[i] != Empty
  }

  /** The server's scan for an unowned slot: it answers false at the first
      empty cell and true when it runs off the end of the board. */
  method BoardFilledUp(g: Grid) returns (full: bool)
    ensures full <==> Full(g)
    ensures !full <==> Count(g, Empty) > 0
  {
    var i := 0;
    while i < |g|
      invariant 0 <= i <= |g|
      invariant forall j :: 0 <= j < i ==> g[j] != Empty
    {
      if g[i] == Empty {
        CountPositive(g, Empty);
        return false;
      }
      i := i + 1;
    }
    CountPositive(g, Empty);
    return true;
  }

  /** The number of slots holding `c`. */
  function Count(g: seq<Cell>, c: Cell): (n: nat)
    ensures n <= |g|
  {
    if g == [] then 0 else (if g[0] == c then 1 else 0) + Count(g[1..], c)
  }

  /** The number of owned slots. */
  function Occupied(g: seq<Cell>): (n: nat)
  {
    |g| - Count(g, Empty)
  }

  /** A slot value is counted exactly when it appears somewhere. */
  lemma {:induction false} CountPositive(g: seq<Cell>, c: Cell)
    ensures Count(g, c) > 0 <==> exists i :: 0 <= i < |g| && g[i] == c
  {
    if g != [] {
      CountPositive(g[1..], c);
      if Count(g[1..], c) > 0 {
        var i :| 0 <= i < |g[1..]| && g[1..][i] == c;
        assert g[i + 1] == c;
      }
      if g[0] != c && exists i :: 0 <= i < |g| && g[i] == c {
        var i :| 0 <= i < |g| && g[i] == c;
        assert g[1..][i - 1] == c;
      }
    }
  }

  /** The board is full exactly when no slot is empty, i.e. when all
      nine slots are occupied. */
  lemma FullIffNineOccupied(g: Grid)
    ensures Full(g) <==> Occupied(g) == 9
  {
    CountPositive(g, Empty);
  }

  /** Every slot is empty or owned by one of the two players. */
  lemma {:induction false} CountPartition(g: seq<Cell>)
    ensures Count(g, Empty) + Count(g, Taken(X)) + Count(g, Taken(O)) == |g|
  {
    if g != [] {
      CountPartition(g[1..]);
      match g[0]
      case Empty =>
      case Taken(m) => MarkCases(X, m);
    }
  }

  /** Overwriting slot `i` with `d` moves one unit of count from the old
      value to `d` and leaves every other count alone. */
  lemma {:induction false} CountUpdate(g: seq<Cell>, i: nat, d: Cell, e: Cell)
    requires i < |g|
    ensures Count(g[i := d], e)
         == Count(g, e) - (if g[i] == e then 1 else 0) + (if d == e then 1 else 0)
  {
    var h := g[i := d];
    if i == 0 {
      assert h[1..] == g[1..];
    } else {
      assert h[1..] == g[1..][i - 1 := d];
      CountUpdate(g[1..], i - 1, d, e);
    }
  }
}
